/** The service object: it sets and deletes Redis keys one by one, proved against the functions of `Sessions`. */
module SessionService {
  import opened Options
  import opened Sessions

  class Service {
    var sessions: map<SessionId, Entry<Session>>
    var userSessions: map<UserId, Entry<seq<SessionId>>>
    var deviceSessions: map<(UserId, DeviceId), Entry<SessionId>>

    function View(): Store
      reads this
    {
      Store(sessions, userSessions, deviceSessions)
    }

    constructor ()
      ensures View() == EMPTY
    {
      sessions, userSessions, deviceSessions := map[], map[], map[];
    }

    method TrackUserSession(read: nat, put: nat, user: UserId, id: SessionId)
      modifies this`userSessions
      ensures View() == Sessions.TrackUserSession(old(View()), read, put, user, id)
    {
      var existing := [];
      var reply := Get(userSessions, user, read);
      if reply.Some? { existing := reply.value; }
      if id !in existing {
        existing := existing + [id];
        userSessions := Put(userSessions, user, existing, put, SESSION_TTL_MS);
      }
    }

    method RemoveUserSession(read: nat, put: nat, user: UserId, id: SessionId)
      modifies this`userSessions
      ensures View() == Sessions.RemoveUserSession(old(View()), read, put, user, id)
    {
      var existing := [];
      var reply := Get(userSessions, user, read);
      if reply.Some? { existing := reply.value; }
      var updated := Without(existing, id);
      userSessions := Put(userSessions, user, updated, put, SESSION_TTL_MS);
    }

    method InvalidateSession(m: Removal, id: SessionId)
      modifies this
      ensures View() == Sessions.InvalidateSession(old(View()), m, id)
    {
      var reply := Get(sessions, id, m.get);
      if reply.Some? {
        var session := reply.value;
        sessions := sessions - {id};
        RemoveUserSession(m.read, m.put, session.userId, id);
        deviceSessions := deviceSessions - {(session.userId, session.deviceId)};
      }
    }

    method InvalidateDeviceSession(look: nat, m: Removal, user: UserId, device: DeviceId)
      modifies this
      ensures View() == Sessions.InvalidateDeviceSession(old(View()), look, m, user, device)
    {
      var existing := Get(deviceSessions, (user, device), look);
      if existing.Some? {
        InvalidateSession(m, existing.value);
      }
    }

    method CreateSession(m: Creation, user: UserId, device: DeviceId, id: SessionId) returns (session: Session)
      modifies this
      ensures View() == Sessions.CreateSession(old(View()), m, user, device, id)
      ensures session.sessionId == id && session.userId == user && session.deviceId == device
      ensures session.expiresAt == m.clock + SESSION_TTL_MS && session.isValid
    {
      session := Session(id, user, device, m.clock, m.clock + SESSION_TTL_MS, true);
      InvalidateDeviceSession(m.look, m.clear, user, device);
      sessions := Put(sessions, id, session, m.store, SESSION_TTL_MS);
      TrackUserSession(m.read, m.track, user, id);
      deviceSessions := Put(deviceSessions, (user, device), id, m.point, SESSION_TTL_MS);
    }

    method TouchSession(m: Moments, id: SessionId)
      modifies this`sessions
      ensures View() == Sessions.TouchSession(old(View()), m, id)
    {
      var reply := Get(sessions, id, m.get);
      if reply.Some? {
        var session := reply.value.(lastActive := m.clock);
        var ttlRemaining := session.expiresAt - m.clock;
        sessions := Put(sessions, id, session, m.put, Max(ttlRemaining, 0));
      }
    }

    method ValidateSession(m: Check, id: SessionId, device: DeviceId) returns (session: Option<Session>)
      modifies this
      ensures (View(), session) == Sessions.ValidateSession(old(View()), m, id, device)
    {
      var reply := Get(sessions, id, m.get);
      if reply.None? { return None; }
      if !reply.value.isValid { return None; }
      if reply.value.deviceId != device { return None; }
      if m.clock > reply.value.expiresAt {
        InvalidateSession(m.clear, id);
        return None;
      }
      return reply;
    }

    method InvalidateAllUserSessions(start: nat, pace: seq<Lag>, user: UserId) returns (count: nat)
      modifies this
      ensures (View(), count) == Sessions.InvalidateAllUserSessions(old(View()), start, pace, user)
    {
      var sessionIds := Get(userSessions, user, start);
      if sessionIds.None? || |sessionIds.value| == 0 {
        return 0;
      }
      var ids := sessionIds.value;
      for i := 0 to |ids|
        invariant View() == InvalidateEach(old(View()), start, pace, ids[..i])
      {
        assert ids[..i + 1][..i] == ids[..i];
        InvalidateSession(Visit(start, pace, i), ids[i]);
      }
      assert ids[..|ids|] == ids;
      userSessions := userSessions - {user};
      count := |ids|;
    }

    method GetUserSessions(start: nat, waits: seq<nat>, user: UserId) returns (listed: seq<Session>)
      ensures listed == Sessions.GetUserSessions(View(), start, waits, UserList(View(), start, user))
    {
      var sessionIds := Get(userSessions, user, start);
      listed := [];
      if sessionIds.Some? {
        var ids := sessionIds.value;
        for i := 0 to |ids|
          invariant listed == Sessions.GetUserSessions(View(), start, waits, ids[..i])
        {
          assert ids[..i + 1][..i] == ids[..i];
          var session := Get(sessions, ids[i], ReadAt(start, waits, i));
          if session.Some? && session.value.isValid {
            listed := listed + [session.value];
          }
        }
        assert ids[..|ids|] == ids;
      }
    }
  }
}
