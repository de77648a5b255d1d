/**
  The session store (session.service.ts): three families of expiring Redis keys.

  Every Redis read and write of an operation has a moment of its own, in milliseconds, and so has every reading of the
  clock: the moments are arguments. Deletions follow at once; what they do does not depend on the time. A key is gone
  once the time reaches its expiry.
 */
module Sessions {
  import opened Options

  type UserId = nat
  type DeviceId = nat
  type SessionId = nat

  const SESSION_TTL_MS: nat := 7 * 24 * 60 * 60 * 1000

  // --- Redis ---

  datatype Entry<+T> = Entry(value: T, expiry: Option<nat>)
  {
    predicate LiveAt(now: nat) { expiry.Some? ==> now < expiry.value }
  }

  function Get<K, V>(keys: map<K, Entry<V>>, key: K, now: nat): Option<V> {
    if key in keys && keys[key].LiveAt(now) then Some(keys[key].value) else None
  }

  /** A time to live that is not positive stores the key without an expiry. */
  function Put<K, V>(keys: map<K, Entry<V>>, key: K, value: V, now: nat, ttlMs: int): map<K, Entry<V>> {
    keys[key := Entry(value, if ttlMs > 0 then Some(now + ttlMs) else None)]
  }

  // --- The store ---

  datatype Session = Session(
    sessionId: SessionId,
    userId: UserId,
    deviceId: DeviceId,
    lastActive: nat,
    expiresAt: nat,
    isValid: bool)

  datatype Store = Store(
    sessions: map<SessionId, Entry<Session>>,
    userSessions: map<UserId, Entry<seq<SessionId>>>,
    deviceSessions: map<(UserId, DeviceId), Entry<SessionId>>)

  const EMPTY := Store(map[], map[], map[])

  function Without(ids: seq<SessionId>, id: SessionId): (r: seq<SessionId>)
    ensures forall x :: x in r <==> x in ids && x != id
    ensures |r| <= |ids|
  {
    if ids == [] then []
    else if ids[0] == id then Without(ids[1..], id)
    else [ids[0]] + Without(ids[1..], id)
  }

  function UserList(st: Store, now: nat, user: UserId): seq<SessionId> {
    match Get(st.userSessions, user, now)
    case None => []
    case Some(ids) => ids
  }

  function TrackUserSession(st: Store, read: nat, put: nat, user: UserId, id: SessionId): Store {
    var existing := UserList(st, read, user);
    if id in existing then st
    else st.(userSessions := Put(st.userSessions, user, existing + [id], put, SESSION_TTL_MS))
  }

  function RemoveUserSession(st: Store, read: nat, put: nat, user: UserId, id: SessionId): Store {
    st.(userSessions := Put(st.userSessions, user, Without(UserList(st, read, user), id), put, SESSION_TTL_MS))
  }

  /** invalidateSession: the session is read and deleted, the user's list is read and written, the pointer deleted. */
  datatype Removal = Removal(get: nat, read: nat, put: nat)
  {
    predicate Ordered() { get <= read <= put }
  }

  function InvalidateSession(st: Store, m: Removal, id: SessionId): Store {
    match Get(st.sessions, id, m.get)
    case None => st
    case Some(session) =>
      var deleted := st.(sessions := st.sessions - {id});
      var untracked := RemoveUserSession(deleted, m.read, m.put, session.userId, id);
      untracked.(deviceSessions := untracked.deviceSessions - {(session.userId, session.deviceId)})
  }

  function InvalidateDeviceSession(st: Store, look: nat, m: Removal, user: UserId, device: DeviceId): Store {
    match Get(st.deviceSessions, (user, device), look)
    case None => st
    case Some(id) => InvalidateSession(st, m, id)
  }

  /**
    createSession: the clock is read, the device is looked up and cleared, the session is written, the user's list is
    read and written, the pointer is written.
   */
  datatype Creation = Creation(
    clock: nat, look: nat, clear: Removal, store: nat, read: nat, track: nat, point: nat)
  {
    predicate Ordered() {
      clock <= look <= clear.get && clear.Ordered() && clear.put <= store <= read <= track <= point
    }
  }

  function CreateSession(st: Store, m: Creation, user: UserId, device: DeviceId, id: SessionId): Store {
    var session := Session(id, user, device, m.clock, m.clock + SESSION_TTL_MS, true);
    var cleared := InvalidateDeviceSession(st, m.look, m.clear, user, device);
    var stored := cleared.(sessions := Put(cleared.sessions, id, session, m.store, SESSION_TTL_MS));
    var tracked := TrackUserSession(stored, m.read, m.track, user, id);
    tracked.(deviceSessions := Put(tracked.deviceSessions, (user, device), id, m.point, SESSION_TTL_MS))
  }

  function Max(a: int, b: int): int { if a >= b then a else b }

  /** touchSession: the session is read, then the clock, and then the session is written. */
  datatype Moments = Moments(get: nat, clock: nat, put: nat)
  {
    predicate Ordered() { get <= clock <= put }
  }

  function TouchSession(st: Store, m: Moments, id: SessionId): Store {
    match Get(st.sessions, id, m.get)
    case None => st
    case Some(session) =>
      var ttlRemaining := session.expiresAt - m.clock;
      st.(sessions := Put(st.sessions, id, session.(lastActive := m.clock), m.put, Max(ttlRemaining, 0)))
  }

  /** validateSession: the session is read, then the clock, and then the session may be invalidated. */
  datatype Check = Check(get: nat, clock: nat, clear: Removal)
  {
    predicate Ordered() { get <= clock <= clear.get && clear.Ordered() }
  }

  /** Validation finds the session, for the right device, but past its expiry. */
  predicate FoundExpired(st: Store, m: Check, id: SessionId, device: DeviceId) {
    var session := Get(st.sessions, id, m.get);
    session.Some? && session.value.isValid && session.value.deviceId == device && m.clock > session.value.expiresAt
  }

  /** The session a request is let through with, and the store afterwards. */
  function ValidateSession(st: Store, m: Check, id: SessionId, device: DeviceId): (Store, Option<Session>) {
    match Get(st.sessions, id, m.get)
    case None => (st, None)
    case Some(session) =>
      if !session.isValid then (st, None)
      else if session.deviceId != device then (st, None)
      else if m.clock > session.expiresAt then (InvalidateSession(st, m.clear, id), None)
      else (st, Some(session))
  }

  /** The milliseconds before each of the commands of one invalidation. */
  datatype Lag = Lag(get: nat, read: nat, put: nat)

  const AT_ONCE := Lag(0, 0, 0)

  function RemovalAfter(start: nat, lag: Lag): Removal {
    Removal(start + lag.get, start + lag.get + lag.read, start + lag.get + lag.read + lag.put)
  }

  /** The time after the first n of a row of invalidations; those beyond the pace are done at once. */
  function TimeAfter(start: nat, pace: seq<Lag>, n: nat): (t: nat)
    ensures t >= start
  {
    if n == 0 then start else Visit(start, pace, n - 1).put
  }

  /** The moments of the i-th in a row of invalidations. */
  function Visit(start: nat, pace: seq<Lag>, i: nat): (m: Removal)
    ensures m.Ordered() && m.get >= start
    decreases i, 0
  {
    RemovalAfter(if i == 0 then start else Visit(start, pace, i - 1).put, if i < |pace| then pace[i] else AT_ONCE)
  }

  function InvalidateEach(st: Store, start: nat, pace: seq<Lag>, ids: seq<SessionId>): Store
    decreases |ids|
  {
    if ids == [] then st
    else
      var n := |ids| - 1;
      InvalidateSession(InvalidateEach(st, start, pace, ids[..n]), Visit(start, pace, n), ids[n])
  }

  /** The list is read at the start, and then its sessions are invalidated one after the other. */
  function InvalidateAllUserSessions(st: Store, start: nat, pace: seq<Lag>, user: UserId): (Store, nat) {
    var ids := UserList(st, start, user);
    if ids == [] then (st, 0)
    else
      var cleared := InvalidateEach(st, start, pace, ids);
      (cleared.(userSessions := cleared.userSessions - {user}), |ids|)
  }

  /** The moment of the i-th in a row of reads; those beyond the listed waits follow at once. */
  function ReadAt(start: nat, waits: seq<nat>, i: nat): (t: nat)
    ensures t >= start
  {
    (if i == 0 then start else ReadAt(start, waits, i - 1)) + if i < |waits| then waits[i] else 0
  }

  /** getUserSessions, once the list is read: its sessions are read one after the other. */
  function GetUserSessions(st: Store, start: nat, waits: seq<nat>, ids: seq<SessionId>): seq<Session> {
    if ids == [] then []
    else
      var n := |ids| - 1;
      var before := GetUserSessions(st, start, waits, ids[..n]);
      match Get(st.sessions, ids[n], ReadAt(start, waits, n))
      case None => before
      case Some(session) => if session.isValid then before + [session] else before
  }

  /** Redis still has the session's key. */
  predicate Live(st: Store, now: nat, id: SessionId) {
    id in st.sessions && st.sessions[id].LiveAt(now)
  }

  /** The session is stored and its own expiry has not been reached. */
  predicate Current(st: Store, now: nat, id: SessionId) {
    id in st.sessions && now < st.sessions[id].value.expiresAt
  }

  /** Invalidating this session deletes a device key that points to another one, which is current to the end. */
  predicate Unhooks(st: Store, m: Removal, id: SessionId) {
    && Live(st, m.get, id)
    && var key := (st.sessions[id].value.userId, st.sessions[id].value.deviceId);
    && key in st.deviceSessions && st.deviceSessions[key].value != id
    && Current(st, m.put, st.deviceSessions[key].value)
  }
}
