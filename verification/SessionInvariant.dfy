/** What every session operation keeps, whatever time passes inside and between the operations. */
module SessionInvariant {
  import opened Counting
  import opened Options
  import opened Sessions

  // --- The invariant ---

  /** A stored session carries its own id, expires within one lifetime, and its key does not go before that. */
  ghost predicate SessionsOk(sessions: map<SessionId, Entry<Session>>, now: nat) {
    forall id :: id in sessions ==>
      && sessions[id].value.sessionId == id
      && sessions[id].value.isValid
      && (sessions[id].expiry.Some? ==> sessions[id].expiry.value >= sessions[id].value.expiresAt)
      && sessions[id].value.expiresAt <= now + SESSION_TTL_MS
  }

  /** An index key that expires, but not before `at`. */
  ghost predicate Outlasts(expiry: Option<nat>, at: nat) { expiry.Some? && expiry.value >= at }

  /** The user's list has the session, and is not gone before it. */
  ghost predicate Listed(st: Store, s: Session) {
    && s.userId in st.userSessions
    && s.sessionId in st.userSessions[s.userId].value
    && Outlasts(st.userSessions[s.userId].expiry, s.expiresAt)
  }

  /** The device's key points to the session, and is not gone before it. */
  ghost predicate PointedTo(st: Store, s: Session) {
    && (s.userId, s.deviceId) in st.deviceSessions
    && st.deviceSessions[(s.userId, s.deviceId)].value == s.sessionId
    && Outlasts(st.deviceSessions[(s.userId, s.deviceId)].expiry, s.expiresAt)
  }

  ghost predicate CurrentAreListed(st: Store, now: nat) {
    forall id :: Current(st, now, id) ==> Listed(st, st.sessions[id].value)
  }

  ghost predicate CurrentArePointedTo(st: Store, now: nat) {
    forall id :: Current(st, now, id) ==> PointedTo(st, st.sessions[id].value)
  }

  /** No index points into another user's or device's sessions. */
  ghost predicate IndexesOk(st: Store) {
    && (forall u :: u in st.userSessions ==> Distinct(st.userSessions[u].value))
    && (forall u, id :: u in st.userSessions && id in st.userSessions[u].value && id in st.sessions ==>
          st.sessions[id].value.userId == u)
    && (forall k :: k in st.deviceSessions && st.deviceSessions[k].value in st.sessions ==>
          var s := st.sessions[st.deviceSessions[k].value].value;
          (s.userId, s.deviceId) == k)
  }

  /** Every id in the store was handed out. */
  ghost predicate IssuedOk(st: Store, issued: set<SessionId>) {
    && st.sessions.Keys <= issued
    && (forall u, id :: u in st.userSessions && id in st.userSessions[u].value ==> id in issued)
    && (forall k :: k in st.deviceSessions ==> st.deviceSessions[k].value in issued)
  }

  /** No index key was stored without an expiry. */
  ghost predicate IndexesExpire(st: Store) {
    && (forall u :: u in st.userSessions ==> st.userSessions[u].expiry.Some?)
    && (forall k :: k in st.deviceSessions ==> st.deviceSessions[k].expiry.Some?)
  }

  ghost predicate Inv(st: Store, now: nat, issued: set<SessionId>) {
    && SessionsOk(st.sessions, now)
    && CurrentAreListed(st, now)
    && IndexesOk(st)
    && IssuedOk(st, issued)
    && IndexesExpire(st)
  }

  // --- Each operation keeps it ---

  lemma ClockMoves(st: Store, now: nat, later: nat, issued: set<SessionId>)
    requires Inv(st, now, issued) && now <= later
    ensures Inv(st, later, issued)
    ensures CurrentArePointedTo(st, now) ==> CurrentArePointedTo(st, later)
  {
    assert forall id :: Current(st, later, id) ==> Current(st, now, id);
  }

  lemma {:induction false} WithoutIsDistinct(ids: seq<SessionId>, id: SessionId)
    requires Distinct(ids)
    ensures Distinct(Without(ids, id))
  {
    if ids != [] {
      var rest := ids[1..];
      assert Distinct(rest);
      assert ids[0] !in rest;
      WithoutIsDistinct(rest, id);
    }
  }

  /** A current session can be read, and so can the list that has it. */
  lemma CurrentIsLive(st: Store, now: nat, id: SessionId, issued: set<SessionId>)
    requires Inv(st, now, issued) && Current(st, now, id)
    ensures Live(st, now, id) && Listed(st, st.sessions[id].value)
    ensures id in UserList(st, now, st.sessions[id].value.userId)
  {
    assert Listed(st, st.sessions[id].value);
  }

  lemma InvalidateKeepsInv(st: Store, now: nat, m: Removal, id: SessionId, issued: set<SessionId>)
    requires Inv(st, now, issued) && now <= m.get && m.Ordered()
    ensures Inv(InvalidateSession(st, m, id), m.put, issued)
    ensures !Current(InvalidateSession(st, m, id), m.put, id)
  {
    ClockMoves(st, now, m.read, issued);
    ClockMoves(st, now, m.put, issued);
    if Live(st, m.get, id) {
      var s := st.sessions[id].value;
      var st' := InvalidateSession(st, m, id);
      var ids := UserList(st, m.read, s.userId);
      assert UserList(st.(sessions := st.sessions - {id}), m.read, s.userId) == ids;
      WithoutIsDistinct(ids, id);
      forall x | Current(st', m.put, x) ensures Listed(st', st'.sessions[x].value) {
        assert Current(st, m.read, x);
        CurrentIsLive(st, m.read, x, issued);
      }
    }
  }

  /** Invalidating keeps every current session hooked unless it unhooks one. */
  lemma InvalidateKeepsPointers(st: Store, now: nat, m: Removal, id: SessionId, issued: set<SessionId>)
    requires Inv(st, now, issued) && CurrentArePointedTo(st, now) && now <= m.get && m.Ordered()
    requires !Unhooks(st, m, id)
    ensures CurrentArePointedTo(InvalidateSession(st, m, id), m.put)
  {
    var st' := InvalidateSession(st, m, id);
    InvalidateKeepsInv(st, now, m, id, issued);
    forall x | Current(st', m.put, x) ensures PointedTo(st', st'.sessions[x].value) {
      assert Current(st, now, x);
      assert PointedTo(st, st.sessions[x].value);
    }
  }

  /** And if it does, that one is no longer hooked. */
  lemma UnhookingLoses(st: Store, m: Removal, id: SessionId)
    requires IndexesOk(st) && Unhooks(st, m, id)
    ensures !CurrentArePointedTo(InvalidateSession(st, m, id), m.put)
  {
    var st' := InvalidateSession(st, m, id);
    var key := (st.sessions[id].value.userId, st.sessions[id].value.deviceId);
    var next := st.deviceSessions[key].value;
    assert Current(st', m.put, next) && !PointedTo(st', st'.sessions[next].value);
  }

  lemma TouchKeepsInv(st: Store, now: nat, m: Moments, id: SessionId, issued: set<SessionId>)
    requires Inv(st, now, issued) && now <= m.get && m.Ordered()
    ensures Inv(TouchSession(st, m, id), m.put, issued)
    ensures CurrentArePointedTo(st, now) ==> CurrentArePointedTo(TouchSession(st, m, id), m.put)
  {
    ClockMoves(st, now, m.put, issued);
    if Live(st, m.get, id) {
      var st' := TouchSession(st, m, id);
      forall x | Current(st', m.put, x) ensures
        && Listed(st', st'.sessions[x].value)
        && (CurrentArePointedTo(st, m.put) ==> PointedTo(st', st'.sessions[x].value))
      {
        assert Current(st, m.put, x);
        assert Listed(st, st.sessions[x].value);
      }
    }
  }

  /** Validation finds the session expired, and cleaning it up unhooks. */
  predicate CleanUpUnhooks(st: Store, m: Check, id: SessionId, device: DeviceId) {
    FoundExpired(st, m, id, device) && Unhooks(st, m.clear, id)
  }

  lemma ValidateKeeps(st: Store, now: nat, m: Check, id: SessionId, device: DeviceId, issued: set<SessionId>)
    requires Inv(st, now, issued) && now <= m.get && m.Ordered()
    ensures Inv(ValidateSession(st, m, id, device).0, m.clear.put, issued)
    ensures CurrentArePointedTo(st, now) ==>
              (CurrentArePointedTo(ValidateSession(st, m, id, device).0, m.clear.put)
               <==> !CleanUpUnhooks(st, m, id, device))
  {
    hide Inv, InvalidateSession, CurrentArePointedTo, Unhooks;
    ClockMoves(st, now, m.clear.put, issued);
    InvalidateKeepsInv(st, now, m.clear, id, issued);
    if CurrentArePointedTo(st, now) { InvalidateHooksIff(st, now, m.clear, id, issued); }
  }

  lemma InvalidateHooksIff(st: Store, now: nat, m: Removal, id: SessionId, issued: set<SessionId>)
    requires Inv(st, now, issued) && CurrentArePointedTo(st, now) && now <= m.get && m.Ordered()
    ensures CurrentArePointedTo(InvalidateSession(st, m, id), m.put) <==> !Unhooks(st, m, id)
  {
    hide CurrentArePointedTo, InvalidateSession, Unhooks, SessionsOk, CurrentAreListed, IssuedOk, IndexesExpire;
    if Unhooks(st, m, id) { UnhookingLoses(st, m, id); } else { InvalidateKeepsPointers(st, now, m, id, issued); }
  }

  ghost predicate NoneCurrent(st: Store, now: nat, user: UserId, device: DeviceId) {
    forall id :: Current(st, now, id) ==>
      st.sessions[id].value.userId != user || st.sessions[id].value.deviceId != device
  }

  /** Clearing a device never unhooks, since it invalidates what the device's own key points to. */
  lemma InvalidateDeviceKeeps(
      st: Store, now: nat, look: nat, m: Removal, user: UserId, device: DeviceId, issued: set<SessionId>)
    requires Inv(st, now, issued) && now <= look <= m.get && m.Ordered()
    ensures Inv(InvalidateDeviceSession(st, look, m, user, device), m.put, issued)
    ensures
      var st' := InvalidateDeviceSession(st, look, m, user, device);
      CurrentArePointedTo(st, now) ==> CurrentArePointedTo(st', m.put) && NoneCurrent(st', m.put, user, device)
  {
    ClockMoves(st, now, look, issued);
    ClockMoves(st, now, m.put, issued);
    match Get(st.deviceSessions, (user, device), look)
    case None =>
      if CurrentArePointedTo(st, look) {
        forall id | Current(st, m.put, id)
          ensures st.sessions[id].value.userId != user || st.sessions[id].value.deviceId != device
        {
          assert Current(st, look, id);
          assert PointedTo(st, st.sessions[id].value);
        }
      }
    case Some(previous) =>
      InvalidateKeepsInv(st, look, m, previous, issued);
      assert !Unhooks(st, m, previous);
      if CurrentArePointedTo(st, look) {
        InvalidateKeepsPointers(st, look, m, previous, issued);
        ClearedDevice(st, look, m, user, device, previous, issued);
      }
  }

  lemma ClearedDevice(
      st: Store, look: nat, m: Removal, user: UserId, device: DeviceId, previous: SessionId, issued: set<SessionId>)
    requires Inv(st, look, issued) && CurrentArePointedTo(st, look) && look <= m.get && m.Ordered()
    requires Get(st.deviceSessions, (user, device), look) == Some(previous)
    ensures NoneCurrent(InvalidateSession(st, m, previous), m.put, user, device)
  {
    var st' := InvalidateSession(st, m, previous);
    InvalidateKeepsInv(st, look, m, previous, issued);
    forall id | Current(st', m.put, id)
      ensures st'.sessions[id].value.userId != user || st'.sessions[id].value.deviceId != device
    {
      assert Current(st, look, id);
      assert PointedTo(st, st.sessions[id].value);
    }
  }

  /** The writes of createSession that follow once the device is cleared. */
  function Added(st: Store, m: Creation, user: UserId, device: DeviceId, id: SessionId): Store {
    var session := Session(id, user, device, m.clock, m.clock + SESSION_TTL_MS, true);
    Store(Put(st.sessions, id, session, m.store, SESSION_TTL_MS),
          Put(st.userSessions, user, UserList(st, m.read, user) + [id], m.track, SESSION_TTL_MS),
          Put(st.deviceSessions, (user, device), id, m.point, SESSION_TTL_MS))
  }

  lemma CreateAdds(
      st: Store, now: nat, m: Creation, user: UserId, device: DeviceId, id: SessionId, issued: set<SessionId>)
    requires Inv(st, now, issued) && now <= m.clock && m.Ordered() && id !in issued
    ensures
      var cleared := InvalidateDeviceSession(st, m.look, m.clear, user, device);
      && Inv(cleared, m.clear.put, issued)
      && CreateSession(st, m, user, device, id) == Added(cleared, m, user, device, id)
      && (CurrentArePointedTo(st, now) ==>
            CurrentArePointedTo(cleared, m.clear.put) && NoneCurrent(cleared, m.clear.put, user, device))
  {
    hide InvalidateDeviceSession, SessionsOk, CurrentAreListed, CurrentArePointedTo, IndexesOk, IndexesExpire;
    hide NoneCurrent;
    InvalidateDeviceKeeps(st, now, m.look, m.clear, user, device, issued);
    var cleared := InvalidateDeviceSession(st, m.look, m.clear, user, device);
    assert id !in UserList(cleared, m.read, user);
  }

  lemma AddSession(st: Store, m: Creation, user: UserId, device: DeviceId, id: SessionId, issued: set<SessionId>)
    requires Inv(st, m.clear.put, issued) && m.Ordered() && id !in issued
    ensures Inv(Added(st, m, user, device, id), m.point, issued + {id})
  {
    ClockMoves(st, m.clear.put, m.read, issued);
    AddedIndexes(st, m, user, device, id, issued);
    AddedAreListed(st, m, user, device, id, issued);
    hide CurrentAreListed, IndexesOk, IssuedOk;
  }

  lemma AddedAreListed(
      st: Store, m: Creation, user: UserId, device: DeviceId, id: SessionId, issued: set<SessionId>)
    requires Inv(st, m.read, issued) && m.Ordered()
    ensures CurrentAreListed(Added(st, m, user, device, id), m.point)
  {
    hide IndexesOk, IssuedOk, IndexesExpire;
    var st' := Added(st, m, user, device, id);
    forall x | Current(st', m.point, x) ensures Listed(st', st'.sessions[x].value) {
      if x != id {
        assert Current(st, m.read, x);
        CurrentIsLive(st, m.read, x, issued);
      }
    }
  }

  lemma AddedIndexes(
      st: Store, m: Creation, user: UserId, device: DeviceId, id: SessionId, issued: set<SessionId>)
    requires Inv(st, m.read, issued) && id !in issued
    ensures IndexesOk(Added(st, m, user, device, id)) && IssuedOk(Added(st, m, user, device, id), issued + {id})
  {
    hide CurrentAreListed, SessionsOk;
    TrackedList(st, m.read, user, id, issued);
  }

  lemma TrackedList(st: Store, now: nat, user: UserId, id: SessionId, issued: set<SessionId>)
    requires Inv(st, now, issued) && id !in issued
    ensures Distinct(UserList(st, now, user) + [id]) && id !in UserList(st, now, user)
    ensures forall x :: x in UserList(st, now, user) ==> user in st.userSessions && x in st.userSessions[user].value
  {
  }

  lemma AddedIsPointedTo(st: Store, m: Creation, user: UserId, device: DeviceId, id: SessionId)
    requires CurrentArePointedTo(st, m.clear.put) && NoneCurrent(st, m.clear.put, user, device) && m.Ordered()
    ensures CurrentArePointedTo(Added(st, m, user, device, id), m.point)
  {
    var st' := Added(st, m, user, device, id);
    forall x | Current(st', m.point, x) ensures PointedTo(st', st'.sessions[x].value) {
      if x != id {
        assert Current(st, m.clear.put, x);
        assert PointedTo(st, st.sessions[x].value);
      }
    }
  }

  lemma CreateKeeps(
      st: Store, now: nat, m: Creation, user: UserId, device: DeviceId, id: SessionId, issued: set<SessionId>)
    requires Inv(st, now, issued) && now <= m.clock && m.Ordered() && id !in issued
    ensures Inv(CreateSession(st, m, user, device, id), m.point, issued + {id})
    ensures CurrentArePointedTo(st, now) ==> CurrentArePointedTo(CreateSession(st, m, user, device, id), m.point)
  {
    hide InvalidateDeviceSession, CreateSession, Added, Inv, CurrentArePointedTo, NoneCurrent;
    CreateAdds(st, now, m, user, device, id, issued);
    var cleared := InvalidateDeviceSession(st, m.look, m.clear, user, device);
    AddSession(cleared, m, user, device, id, issued);
    if CurrentArePointedTo(st, now) { AddedIsPointedTo(cleared, m, user, device, id); }
  }

  // --- Rows of invalidations ---

  lemma {:induction false} SurvivorsUnchanged(st: Store, start: nat, pace: seq<Lag>, ids: seq<SessionId>)
    ensures
      var st' := InvalidateEach(st, start, pace, ids);
      forall id :: id in st'.sessions ==> id in st.sessions && st'.sessions[id] == st.sessions[id]
    decreases |ids|
  {
    hide Visit;
    if ids != [] {
      SurvivorsUnchanged(st, start, pace, ids[..|ids| - 1]);
    }
  }

  lemma {:induction false} InvalidateEachKeepsInv(
      st: Store, now: nat, start: nat, pace: seq<Lag>, ids: seq<SessionId>, issued: set<SessionId>)
    requires Inv(st, now, issued) && now <= start
    ensures
      var st', end := InvalidateEach(st, start, pace, ids), TimeAfter(start, pace, |ids|);
      && Inv(st', end, issued)
      && forall x :: Current(st', end, x) <==> Current(st, end, x) && x !in ids
    decreases |ids|
  {
    hide Inv;
    ClockMoves(st, now, start, issued);
    if ids != [] {
      hide InvalidateSession;
      var n := |ids| - 1;
      var m, before := Visit(start, pace, n), InvalidateEach(st, start, pace, ids[..n]);
      InvalidateEachKeepsInv(st, now, start, pace, ids[..n], issued);
      SurvivorsUnchanged(st, start, pace, ids[..n]);
      InvalidateKeepsInv(before, TimeAfter(start, pace, n), m, ids[n], issued);
      OneMoreGone(st, before, TimeAfter(start, pace, n), m, ids, n);
    }
  }

  lemma OneMoreGone(st: Store, before: Store, now: nat, m: Removal, ids: seq<SessionId>, n: nat)
    requires |ids| == n + 1 && now <= m.get && m.Ordered()
    requires forall x :: Current(before, now, x) <==> Current(st, now, x) && x !in ids[..n]
    requires forall x :: x in before.sessions ==> x in st.sessions && before.sessions[x] == st.sessions[x]
    requires !Current(InvalidateSession(before, m, ids[n]), m.put, ids[n])
    ensures
      forall x :: Current(InvalidateSession(before, m, ids[n]), m.put, x) <==> Current(st, m.put, x) && x !in ids
  {
    assert ids == ids[..n] + [ids[n]];
    forall x | Current(st, m.put, x) && x !in ids ensures Current(InvalidateSession(before, m, ids[n]), m.put, x) {
      assert Current(st, now, x);
      assert Current(before, now, x);
    }
    forall x | Current(InvalidateSession(before, m, ids[n]), m.put, x) ensures Current(st, m.put, x) && x !in ids {
      assert Current(before, now, x);
    }
  }

  /** When the loop of invalidateAllUserSessions ends. */
  function EndOfAll(st: Store, start: nat, pace: seq<Lag>, user: UserId): (t: nat)
    ensures t >= start
  {
    TimeAfter(start, pace, |UserList(st, start, user)|)
  }

  lemma InvalidateAllKeepsInv(
      st: Store, before: nat, start: nat, pace: seq<Lag>, user: UserId, issued: set<SessionId>)
    requires Inv(st, before, issued) && before <= start
    ensures
      var st', end := InvalidateAllUserSessions(st, start, pace, user).0, EndOfAll(st, start, pace, user);
      && Inv(st', end, issued)
      && (forall id :: Current(st', end, id) <==> Current(st, end, id) && st.sessions[id].value.userId != user)
      && (forall id :: id in st'.sessions ==> id in st.sessions && st'.sessions[id] == st.sessions[id])
  {
    hide Visit, InvalidateEach;
    var ids, end := UserList(st, start, user), EndOfAll(st, start, pace, user);
    ClockMoves(st, before, start, issued);
    ClockMoves(st, before, end, issued);
    forall id | Current(st, end, id) ensures st.sessions[id].value.userId == user <==> id in ids {
      CurrentIsLive(st, start, id, issued);
    }
    if ids != [] {
      InvalidateEachKeepsInv(st, before, start, pace, ids, issued);
      SurvivorsUnchanged(st, start, pace, ids);
      ListDropped(InvalidateEach(st, start, pace, ids), end, user, issued);
    }
  }

  /** The list of a user without current sessions can go. */
  lemma ListDropped(st: Store, now: nat, user: UserId, issued: set<SessionId>)
    requires Inv(st, now, issued)
    requires forall id :: Current(st, now, id) ==> st.sessions[id].value.userId != user
    ensures Inv(st.(userSessions := st.userSessions - {user}), now, issued)
  {
    var st' := st.(userSessions := st.userSessions - {user});
    forall x | Current(st', now, x) ensures Listed(st', st'.sessions[x].value) {
      assert Current(st, now, x);
      assert Listed(st, st.sessions[x].value);
    }
  }

  /** Nothing stored for the user differs. */
  ghost predicate SameFor(st: Store, st': Store, user: UserId) {
    && (forall id :: id in st.sessions && st.sessions[id].value.userId == user ==>
          id in st'.sessions && st'.sessions[id] == st.sessions[id])
    && (forall id :: id in st'.sessions && st'.sessions[id].value.userId == user ==> id in st.sessions)
    && (user in st.userSessions <==> user in st'.userSessions)
    && (user in st.userSessions ==> st'.userSessions[user] == st.userSessions[user])
    && (forall d :: (user, d) in st.deviceSessions <==> (user, d) in st'.deviceSessions)
    && (forall d :: (user, d) in st.deviceSessions ==> st'.deviceSessions[(user, d)] == st.deviceSessions[(user, d)])
  }

  lemma InvalidateKeepsOthers(st: Store, m: Removal, id: SessionId, other: UserId)
    requires Live(st, m.get, id) ==> st.sessions[id].value.userId != other
    ensures SameFor(st, InvalidateSession(st, m, id), other)
  {
  }

  lemma {:induction false} InvalidateEachKeepsOthers(
      st: Store, start: nat, pace: seq<Lag>, ids: seq<SessionId>, other: UserId)
    requires forall id :: id in ids && id in st.sessions ==> st.sessions[id].value.userId != other
    ensures SameFor(st, InvalidateEach(st, start, pace, ids), other)
    decreases |ids|
  {
    hide Visit;
    if ids != [] {
      hide InvalidateSession;
      var n := |ids| - 1;
      InvalidateEachKeepsOthers(st, start, pace, ids[..n], other);
      SurvivorsUnchanged(st, start, pace, ids[..n]);
      InvalidateKeepsOthers(InvalidateEach(st, start, pace, ids[..n]), Visit(start, pace, n), ids[n], other);
    }
  }

  lemma InvalidateAllKeepsOthers(st: Store, start: nat, pace: seq<Lag>, user: UserId, other: UserId)
    requires IndexesOk(st) && other != user
    ensures SameFor(st, InvalidateAllUserSessions(st, start, pace, user).0, other)
  {
    hide InvalidateEach;
    InvalidateEachKeepsOthers(st, start, pace, UserList(st, start, user), other);
  }

  /** All of the user's current sessions go, and nobody else's pointers are touched. */
  lemma InvalidateAllKeepsPointers(
      st: Store, before: nat, start: nat, pace: seq<Lag>, user: UserId, issued: set<SessionId>)
    requires Inv(st, before, issued) && before <= start && CurrentArePointedTo(st, before)
    ensures
      CurrentArePointedTo(InvalidateAllUserSessions(st, start, pace, user).0, EndOfAll(st, start, pace, user))
  {
    hide InvalidateAllUserSessions, SessionsOk, CurrentAreListed, IssuedOk, IndexesExpire, EndOfAll;
    InvalidateAllKeepsInv(st, before, start, pace, user, issued);
    var st', end := InvalidateAllUserSessions(st, start, pace, user).0, EndOfAll(st, start, pace, user);
    forall x | Current(st', end, x) ensures PointedTo(st', st'.sessions[x].value) {
      assert Current(st, end, x) && st.sessions[x].value.userId != user;
      assert Current(st, before, x);
      InvalidateAllKeepsOthers(st, start, pace, user, st.sessions[x].value.userId);
    }
  }

  // --- Runs ---

  /**
    An operation, with the milliseconds that pass before each of its moments. Delays before commands that are not
    reached just pass.
   */
  datatype Action =
    | Create(
        user: UserId, device: DeviceId, id: SessionId,
        look: nat, clear: Lag, store: nat, read: nat, track: nat, point: nat)
    | Touch(id: SessionId, clock: nat, put: nat)
    | Validate(id: SessionId, device: DeviceId, clock: nat, clear: Lag)
    | Refresh(id: SessionId, device: DeviceId, clock: nat, clear: Lag, touch: nat, touchClock: nat, touchPut: nat)
    | Invalidate(id: SessionId, lag: Lag)
    | InvalidateAll(user: UserId, pace: seq<Lag>)

  /** An operation, some milliseconds after the end of the previous one. */
  datatype Tick = After(ms: nat, action: Action)

  datatype World = World(store: Store, now: nat, issued: set<SessionId>)

  const START := World(EMPTY, 0, {})

  function CreationOf(now: nat, a: Action): (m: Creation)
    requires a.Create?
    ensures m.Ordered() && m.clock == now
  {
    var clear := RemovalAfter(now + a.look, a.clear);
    var store := clear.put + a.store;
    Creation(now, now + a.look, clear, store, store + a.read, store + a.read + a.track,
             store + a.read + a.track + a.point)
  }

  function MomentsFrom(now: nat, clock: nat, put: nat): (m: Moments)
    ensures m.Ordered() && m.get == now
  {
    Moments(now, now + clock, now + clock + put)
  }

  function CheckFrom(now: nat, clock: nat, clear: Lag): (m: Check)
    ensures m.Ordered() && m.get == now
  {
    Check(now, now + clock, RemovalAfter(now + clock, clear))
  }

  /** The moments of the touch that follows a successful validation. */
  function SecondTouch(now: nat, a: Action): (m: Moments)
    requires a.Refresh?
    ensures m.Ordered() && m.get >= CheckFrom(now, a.clock, a.clear).clear.put
  {
    MomentsFrom(CheckFrom(now, a.clock, a.clear).clear.put + a.touch, a.touchClock, a.touchPut)
  }

  /** The store after the operation, and the time it ends. */
  function Perform(st: Store, now: nat, a: Action): (Store, nat) {
    match a
    case Create(user, device, id, _, _, _, _, _, _) =>
      (CreateSession(st, CreationOf(now, a), user, device, id), CreationOf(now, a).point)
    case Touch(id, clock, put) => (TouchSession(st, MomentsFrom(now, clock, put), id), MomentsFrom(now, clock, put).put)
    case Validate(id, device, clock, clear) =>
      (ValidateSession(st, CheckFrom(now, clock, clear), id, device).0, CheckFrom(now, clock, clear).clear.put)
    case Refresh(id, device, clock, clear, _, _, _) =>
      var (st', session) := ValidateSession(st, CheckFrom(now, clock, clear), id, device);
      if session.Some? then (TouchSession(st', SecondTouch(now, a), session.value.sessionId), SecondTouch(now, a).put)
      else (st', CheckFrom(now, clock, clear).clear.put)
    case Invalidate(id, lag) => (InvalidateSession(st, RemovalAfter(now, lag), id), RemovalAfter(now, lag).put)
    case InvalidateAll(user, pace) =>
      (InvalidateAllUserSessions(st, now, pace, user).0, EndOfAll(st, now, pace, user))
  }

  function Step(w: World, t: Tick): World {
    var (st, end) := Perform(w.store, w.now + t.ms, t.action);
    World(st, end, if t.action.Create? then w.issued + {t.action.id} else w.issued)
  }

  function Run(w: World, ticks: seq<Tick>): World
    decreases |ticks|
  {
    if ticks == [] then w else Run(Step(w, ticks[0]), ticks[1..])
  }

  /** The random generator never hands out the same id twice. */
  ghost predicate FreshIds(issued: set<SessionId>, ticks: seq<Tick>)
    decreases |ticks|
  {
    ticks == [] ||
    (var a := ticks[0].action;
     if a.Create? then a.id !in issued && FreshIds(issued + {a.id}, ticks[1..]) else FreshIds(issued, ticks[1..]))
  }

  /** The step invalidates a session whose device key points to another one, which is current to the end of it. */
  predicate UnhooksIn(w: World, t: Tick) {
    var now := w.now + t.ms;
    match t.action
    case Validate(id, device, clock, clear) => CleanUpUnhooks(w.store, CheckFrom(now, clock, clear), id, device)
    case Refresh(id, device, clock, clear, _, _, _) =>
      CleanUpUnhooks(w.store, CheckFrom(now, clock, clear), id, device)
    case Invalidate(id, lag) => Unhooks(w.store, RemovalAfter(now, lag), id)
    case _ => false
  }

  ghost predicate InvW(w: World) { Inv(w.store, w.now, w.issued) }

  /** Every current session is hooked. */
  ghost predicate Hooked(w: World) { CurrentArePointedTo(w.store, w.now) }

  lemma RefreshKeeps(w: World, t: Tick)
    requires InvW(w) && t.action.Refresh?
    ensures InvW(Step(w, t))
    ensures Hooked(w) ==> (Hooked(Step(w, t)) <==> !UnhooksIn(w, t))
  {
    hide Inv, CurrentArePointedTo, TouchSession, InvalidateSession, Unhooks, RemovalAfter;
    var now, a := w.now + t.ms, t.action;
    var m := CheckFrom(now, a.clock, a.clear);
    ValidateKeeps(w.store, w.now, m, a.id, a.device, w.issued);
    var (st', session) := ValidateSession(w.store, m, a.id, a.device);
    if session.Some? { TouchKeepsInv(st', m.clear.put, SecondTouch(now, a), session.value.sessionId, w.issued); }
  }

  /** Every step keeps the invariant, and keeps every current session hooked exactly if it does not unhook one. */
  lemma StepKeeps(w: World, t: Tick)
    requires InvW(w) && (t.action.Create? ==> t.action.id !in w.issued)
    ensures InvW(Step(w, t))
    ensures Hooked(w) ==> (Hooked(Step(w, t)) <==> !UnhooksIn(w, t))
  {
    hide Inv, CurrentArePointedTo, CreateSession, TouchSession, ValidateSession, InvalidateSession, EndOfAll;
    hide InvalidateAllUserSessions, CleanUpUnhooks, Unhooks, RemovalAfter;
    var now, st := w.now + t.ms, w.store;
    match t.action
    case Create(user, device, id, _, _, _, _, _, _) =>
      CreateKeeps(st, w.now, CreationOf(now, t.action), user, device, id, w.issued);
    case Touch(id, clock, put) => TouchKeepsInv(st, w.now, MomentsFrom(now, clock, put), id, w.issued);
    case Validate(id, device, clock, clear) =>
      ValidateKeeps(st, w.now, CheckFrom(now, clock, clear), id, device, w.issued);
    case Refresh(_, _, _, _, _, _, _) => RefreshKeeps(w, t);
    case Invalidate(id, lag) =>
      RemovalIsOrdered(now, lag);
      InvalidateKeepsInv(st, w.now, RemovalAfter(now, lag), id, w.issued);
      if Hooked(w) { InvalidateHooksIff(st, w.now, RemovalAfter(now, lag), id, w.issued); }
    case InvalidateAll(user, pace) =>
      InvalidateAllKeepsInv(st, w.now, now, pace, user, w.issued);
      if Hooked(w) { InvalidateAllKeepsPointers(st, w.now, now, pace, user, w.issued); }
  }

  lemma RemovalIsOrdered(start: nat, lag: Lag)
    ensures RemovalAfter(start, lag).Ordered() && RemovalAfter(start, lag).get >= start
  {
  }

  lemma {:induction false} RunKeepsInv(w: World, ticks: seq<Tick>)
    requires InvW(w) && FreshIds(w.issued, ticks)
    ensures InvW(Run(w, ticks))
    decreases |ticks|
  {
    hide InvW, Hooked, Step, UnhooksIn;
    if ticks != [] {
      StepKeeps(w, ticks[0]);
      IssuedGrows(w, ticks[0]);
      RunKeepsInv(Step(w, ticks[0]), ticks[1..]);
    }
  }

  lemma IssuedGrows(w: World, t: Tick)
    ensures Step(w, t).issued == if t.action.Create? then w.issued + {t.action.id} else w.issued
  {
    hide Perform;
  }

  lemma ReachableInv(ticks: seq<Tick>)
    requires FreshIds({}, ticks)
    ensures InvW(Run(START, ticks))
  {
    hide Run;
    RunKeepsInv(START, ticks);
  }

  // --- Prefixes ---

  lemma {:induction false} RunOneMore(w: World, ticks: seq<Tick>, k: nat)
    requires k < |ticks|
    ensures Run(w, ticks[..k + 1]) == Step(Run(w, ticks[..k]), ticks[k])
    decreases k
  {
    hide Step;
    if k == 0 {
      assert ticks[..1][1..] == [];
    } else {
      assert ticks[..k + 1][1..] == ticks[1..][..k] && ticks[..k][1..] == ticks[1..][..k - 1];
      RunOneMore(Step(w, ticks[0]), ticks[1..], k - 1);
    }
  }

  lemma {:induction false} PrefixIsFresh(w: World, ticks: seq<Tick>, k: nat)
    requires FreshIds(w.issued, ticks) && k <= |ticks|
    ensures FreshIds(w.issued, ticks[..k])
    ensures k < |ticks| && ticks[k].action.Create? ==> ticks[k].action.id !in Run(w, ticks[..k]).issued
    decreases k
  {
    hide Step;
    if k > 0 {
      assert ticks[..k][1..] == ticks[1..][..k - 1];
      IssuedGrows(w, ticks[0]);
      PrefixIsFresh(Step(w, ticks[0]), ticks[1..], k - 1);
    }
  }

  /** The world after the first k steps, which satisfies the invariant and lets the next step be taken. */
  lemma PrefixReached(ticks: seq<Tick>, k: nat)
    requires FreshIds({}, ticks) && k < |ticks|
    ensures
      var w := Run(START, ticks[..k]);
      && InvW(w) && (ticks[k].action.Create? ==> ticks[k].action.id !in w.issued)
      && Run(START, ticks[..k + 1]) == Step(w, ticks[k])
  {
    hide Run, InvW, Step;
    PrefixIsFresh(START, ticks, k);
    ReachableInv(ticks[..k]);
    RunOneMore(START, ticks, k);
  }
}
