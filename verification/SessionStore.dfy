/** The control plane's session operations as guarded updates of the rows in place,
    each proved to be one step of SessionLifecycle with the right answer. */
module SessionStore {
  import opened Basics
  import opened SessionLifecycle

  datatype CancellationRequest =
    CancellationRequested | AlreadyCancelling | AlreadyCancelled | NotFound | AlreadyTerminal

  datatype Deletion = Deleted | ConnectionNotFound | ActiveCrawl

  class Store {
    var connections: map<nat, Connection>
    var sessions: map<nat, Session>
    var devices: map<nat, Device>
    var nextSession: nat
    ghost var issued: map<string, Issue>
    ghost var openings: seq<Opening>
    ghost var reaped: set<nat>

    ghost function State(): Db
      reads this
    {
      Db(connections, sessions, devices, nextSession, issued, openings, reaped)
    }

    /** What every method keeps: fresh session ids and the lock. */
    ghost predicate Valid()
      reads this
    {
      IdsBelow(State()) && LockUnique(sessions)
    }

    constructor (connections: map<nat, Connection>, devices: map<nat, Device>)
      ensures Valid() && State() == Db(connections, map[], devices, 0, map[], [], {})
    {
      this.connections, this.devices := connections, devices;
      sessions, nextSession, issued, openings, reaped := map[], 0, map[], [], {};
    }

    /** The lookup of a locked session of the connection. */
    method FindLock(connection: nat) returns (held: bool)
      ensures held == LockHeld(State(), connection)
    {
      var pending := sessions.Keys;
      held := false;
      while pending != {} && !held
        invariant pending <= sessions.Keys
        invariant held ==> LockHeld(State(), connection)
        invariant forall id :: id in sessions && id !in pending && !held ==> !Holds(sessions[id], connection)
        decreases |pending|, !held
      {
        var id :| id in pending;
        if Holds(sessions[id], connection) {
          held := true;
        } else {
          pending := pending - {id};
        }
      }
    }

    method CreateCrawlSession(connection: nat, now: int, leaseMs: int, revision: Option<int>, claim: Option<string>)
      returns (id: Option<nat>)
      requires Valid()
      modifies this
      ensures Valid() && State() == Next(old(State()), Create(connection, now, leaseMs, revision, claim))
      ensures id == if Opens(old(State()), connection, revision, claim) then Some(old(nextSession)) else None
      ensures id.Some? ==>
                           && id.value in sessions && sessions[id.value].connection == connection
                           && sessions[id.value].status.Starting? && sessions[id.value].heartbeatAt == now
                           && sessions[id.value].leaseExpiresAt == Some(now + leaseMs)
      ensures id.Some? && revision.Some? ==> connections[connection].claim.None?
      ensures id.Some? <==>
                && connection in old(connections)
                && (revision.Some? ==>
                      && old(connections)[connection].enabled && old(connections)[connection].revision == revision.value
                      && claim.Some? && claim.value != "" && old(connections)[connection].claim == claim)
                && forall k :: k in old(sessions) && Locked(old(sessions)[k].status) ==> old(sessions)[k].connection != connection
    {
      ghost var s, before := Create(connection, now, leaseMs, revision, claim), State();
      StepRows(before, s);
      StepLock(before, s);
      if revision.Some? {
        if connection !in connections {
          return None;
        }
        var row := connections[connection];
        if !row.enabled || row.revision != revision.value || claim.None? || claim.value == "" || row.claim != claim {
          return None;
        }
      }
      if connection !in connections {
        return None;
      }
      var held := FindLock(connection);
      if held {
        return None;
      }
      id := Some(nextSession);
      sessions := sessions[nextSession := NewSession(connection, now, leaseMs)];
      if revision.Some? {
        connections := connections[connection := connections[connection].(claim := None)];
        openings := openings + [Opening(claim.value, nextSession, connection, revision.value)];
      }
      nextSession := nextSession + 1;
    }

    method RestoreStaleScheduleClaim(connection: nat, expected: int, token: string, prior: ConnectionStatus)
      returns (restored: bool)
      requires Valid()
      modifies this
      ensures Valid() && State() == Next(old(State()), RestoreClaim(connection, expected, token, prior))
      ensures restored == Restores(old(State()), connection, expected, token)
      ensures restored <==>
                && connection in old(connections) && old(connections)[connection].status.Syncing?
                && (old(connections)[connection].claim.None? || old(connections)[connection].claim == Some(token))
                && (!old(connections)[connection].enabled || old(connections)[connection].revision != expected)
                && forall k :: k in old(sessions) && Locked(old(sessions)[k].status) ==> old(sessions)[k].connection != connection
      ensures restored ==> connection in connections && connections[connection] == old(connections)[connection].(status := prior)
    {
      ghost var s, before := RestoreClaim(connection, expected, token, prior), State();
      assert SessionsAfter(before, s) == sessions;
      if connection !in connections {
        return false;
      }
      var row := connections[connection];
      if (row.claim.Some? && row.claim != Some(token)) || (row.enabled && row.revision == expected) || !row.status.Syncing? {
        return false;
      }
      var held := FindLock(connection);
      if held {
        return false;
      }
      connections := connections[connection := row.(status := prior)];
      restored := true;
    }

    /** Write one session row; the step must change no other. */
    method WriteRow(id: nat, row: Session, ghost s: Step)
      requires Valid() && id in sessions && row == RowStep(State(), s, id, sessions[id])
      requires OneRow(s) && s.id == id
      modifies this
      ensures Valid() && State() == Next(old(State()), s)
    {
      WrittenRow(State(), s, id);
      sessions := sessions[id := row];
    }

    /** A guard that lets no row through writes nothing. */
    lemma Unwritten(s: Step)
      requires OneRow(s)
      requires s.id in sessions ==> RowStep(State(), s, s.id, sessions[s.id]) == sessions[s.id]
      ensures Next(State(), s) == State()
    {
    }

    method MarkSessionTerminal(id: nat, success: bool)
      requires Valid()
      modifies this
      ensures Valid() && State() == Next(old(State()), MarkTerminal(id, success))
      ensures id in old(sessions) && Active(old(sessions)[id].status) ==>
                id in sessions && sessions[id].status == if success then Completed else Failed
      ensures forall k :: k in sessions && (k != id || !Active(old(sessions)[id].status)) ==> k in old(sessions) && sessions[k] == old(sessions)[k]
    {
      if id in sessions && Active(sessions[id].status) {
        WriteRow(id, sessions[id].(status := if success then Completed else Failed), MarkTerminal(id, success));
      } else {
        Unwritten(MarkTerminal(id, success));
      }
    }

    method HeartbeatSession(id: nat, now: int, leaseMs: int)
      requires Valid()
      modifies this
      ensures Valid() && State() == Next(old(State()), Heartbeat(id, now, leaseMs))
      ensures id in old(sessions) ==>
                && id in sessions && sessions[id].heartbeatAt == now
                && sessions[id].leaseExpiresAt == Some(now + leaseMs) && sessions[id].status == old(sessions)[id].status
    {
      if id in sessions {
        WriteRow(id, sessions[id].(heartbeatAt := now, leaseExpiresAt := Some(now + leaseMs)), Heartbeat(id, now, leaseMs));
      } else {
        Unwritten(Heartbeat(id, now, leaseMs));
      }
    }

    /** The reaper's where clause. */
    method FindStale(staleMs: int, now: int) returns (dead: set<nat>)
      ensures dead == set id | id in sessions && Reapable(sessions[id], staleMs, now)
    {
      var cutoff := now - staleMs;
      dead := set id | id in sessions && Active(sessions[id].status) && sessions[id].heartbeatAt < cutoff
                       && (sessions[id].leaseExpiresAt.None? || sessions[id].leaseExpiresAt.value < now)
                       && sessions[id].done == {};
    }

    method ReapStaleSessions(staleMs: int, now: int) returns (dead: set<nat>)
      requires Valid()
      modifies this
      ensures Valid() && State() == Next(old(State()), Reap(staleMs, now))
      ensures dead == set id | id in old(sessions) && Reapable(old(sessions)[id], staleMs, now)
    {
      ghost var before := State();
      dead := FindStale(staleMs, now);
      var after := map id | id in sessions :: if id in dead then sessions[id].(status := Failed) else sessions[id];
      ReapedRows(before, staleMs, now, dead, after);
      sessions := after;
      reaped := reaped + dead;
    }

    method RequestSessionCancellation(id: nat) returns (result: CancellationRequest)
      requires Valid()
      modifies this
      ensures Valid() && State() == Next(old(State()), RequestCancel(id))
      ensures result.CancellationRequested? <==> id in old(sessions) && Cancellable(old(sessions)[id])
      ensures result.NotFound? <==> id !in old(sessions)
      ensures result.AlreadyCancelling? <==> id in old(sessions) && old(sessions)[id].status.Cancelling?
      ensures result.AlreadyCancelled? <==> id in old(sessions) && old(sessions)[id].status.Cancelled?
      ensures result.CancellationRequested? ==> id in sessions && sessions[id].status.Cancelling?
    {
      if id !in sessions {
        Unwritten(RequestCancel(id));
        return NotFound;
      }
      var row := sessions[id];
      if Cancellable(row) {
        WriteRow(id, row.(status := Cancelling), RequestCancel(id));
        return CancellationRequested;
      }
      Unwritten(RequestCancel(id));
      result := if row.status.Cancelling? then AlreadyCancelling
                else if row.status.Cancelled? then AlreadyCancelled else AlreadyTerminal;
    }

    method FinalizeSessionCancellation(id: nat) returns (ok: bool)
      requires Valid()
      modifies this
      ensures Valid() && State() == Next(old(State()), FinalizeCancel(id))
      ensures ok <==> id in old(sessions) && old(sessions)[id].status.Cancelling?
      ensures ok ==> id in sessions && sessions[id].status.Cancelled?
    {
      ok := id in sessions && sessions[id].status.Cancelling?;
      if ok {
        WriteRow(id, sessions[id].(status := Cancelled), FinalizeCancel(id));
      } else {
        Unwritten(FinalizeCancel(id));
      }
    }

    method FinalizeSessionFailureAfterFence(id: nat) returns (ok: bool)
      requires Valid()
      modifies this
      ensures Valid() && State() == Next(old(State()), FinalizeFailure(id))
      ensures ok <==> id in old(sessions) && old(sessions)[id].status.Cancelling?
      ensures ok ==> id in sessions && sessions[id].status.Failed?
    {
      ok := id in sessions && sessions[id].status.Cancelling?;
      if ok {
        WriteRow(id, sessions[id].(status := Failed), FinalizeFailure(id));
      } else {
        Unwritten(FinalizeFailure(id));
      }
    }

    method UpdateSchedule(connection: nat, owner: string, enable: Option<bool>) returns (found: bool)
      requires Valid()
      modifies this
      ensures Valid() && State() == Next(old(State()), EditSchedule(connection, owner, enable))
      ensures found == Edits(old(State()), connection, owner)
      ensures found ==>
                && connection in connections && connections[connection].claim.None?
                && connections[connection].revision == old(connections)[connection].revision + 1
                && connections[connection].enabled == (if enable.Some? then enable.value else old(connections)[connection].enabled)
                && connections[connection].status == old(connections)[connection].status
    {
      assert SessionsAfter(State(), EditSchedule(connection, owner, enable)) == sessions;
      found := connection in connections && connections[connection].owner == owner;
      if found {
        var row := connections[connection];
        var enabled := if enable.Some? then enable.value else row.enabled;
        connections := connections[connection := row.(enabled := enabled, revision := row.revision + 1, claim := None)];
      }
    }

    method Delete(connection: nat, owner: string) returns (result: Deletion)
      requires Valid()
      modifies this
      ensures Valid() && State() == Next(old(State()), DeleteConnection(connection, owner))
      ensures result.Deleted? ==> forall id :: id in sessions ==> sessions[id].connection != connection
      ensures result.ActiveCrawl? ==> LockHeld(State(), connection)
      ensures result.ConnectionNotFound? <==> !Edits(old(State()), connection, owner)
      ensures result.Deleted? <==>
                && connection in old(connections) && old(connections)[connection].owner == owner
                && forall k :: k in old(sessions) && Locked(old(sessions)[k].status) ==> old(sessions)[k].connection != connection
      ensures result.Deleted? ==> connection !in connections
    {
      ghost var s, before := DeleteConnection(connection, owner), State();
      StepRows(before, s);
      StepLock(before, s);
      if connection !in connections || connections[connection].owner != owner {
        return ConnectionNotFound;
      }
      var held := FindLock(connection);
      if held {
        return ActiveCrawl;
      }
      connections := connections - {connection};
      sessions := map id | id in sessions && sessions[id].connection != connection :: sessions[id];
      result := Deleted;
    }

    /** The device half of a revocation: an unrevoked row of this owner, and of this
        credential when one is given. */
    method RevokeDevice(device: nat, owner: string, credential: Option<string>) returns (revoked: bool)
      modifies this`devices
      ensures revoked == DeviceMatches(old(State()), device, owner, credential)
      ensures devices == DevicesAfter(old(State()), Revoke(device, owner, credential))
    {
      if device !in devices || devices[device].owner != owner || devices[device].revoked
         || (credential.Some? && credential.value != "" && devices[device].hashedToken != credential.value) {
        return false;
      }
      devices := devices[device := devices[device].(revoked := true)];
      revoked := true;
    }

    method RevokeDeviceAccess(device: nat, owner: string, credential: Option<string>)
      returns (revoked: bool, fenced: set<nat>)
      requires Valid()
      modifies this
      ensures Valid() && State() == Next(old(State()), Revoke(device, owner, credential))
      ensures revoked == DeviceMatches(old(State()), device, owner, credential)
      ensures fenced == set id | id in old(sessions) && revoked && OnDevice(old(sessions)[id], device)
      ensures revoked ==> device in devices && devices[device].revoked
      ensures forall id :: id in fenced ==> id in sessions && sessions[id].status.Cancelling?
    {
      ghost var before := State();
      revoked := RevokeDevice(device, owner, credential);
      fenced := set id | id in sessions && revoked && OnDevice(sessions[id], device);
      var after := map id | id in sessions :: if id in fenced then sessions[id].(status := Cancelling) else sessions[id];
      RevokedRows(before, device, owner, credential, fenced, after);
      sessions := after;
    }
  }

  lemma {:induction false} ReapedRows(db: Db, staleMs: int, now: int, dead: set<nat>, after: map<nat, Session>)
    requires IdsBelow(db) && LockUnique(db.sessions)
    requires dead == set id | id in db.sessions && Reapable(db.sessions[id], staleMs, now)
    requires after == map id | id in db.sessions :: if id in dead then db.sessions[id].(status := Failed) else db.sessions[id]
    ensures var q := Next(db, Reap(staleMs, now));
      q == db.(sessions := after, reaped := db.reaped + dead) && IdsBelow(q) && LockUnique(after)
  {
  }

  predicate OnDevice(row: Session, device: nat) {
    row.device == Some(device) && Active(row.status)
  }

  lemma {:induction false} RevokedRows(db: Db, device: nat, owner: string, credential: Option<string>, fenced: set<nat>, after: map<nat, Session>)
    requires IdsBelow(db) && LockUnique(db.sessions)
    requires fenced == set id | id in db.sessions && DeviceMatches(db, device, owner, credential) && OnDevice(db.sessions[id], device)
    requires after == map id | id in db.sessions :: if id in fenced then db.sessions[id].(status := Cancelling) else db.sessions[id]
    ensures var s := Revoke(device, owner, credential); var q := Next(db, s);
      q == db.(sessions := after, devices := DevicesAfter(db, s)) && IdsBelow(q) && LockUnique(after)
  {
    var s := Revoke(device, owner, credential);
    StepRows(db, s);
    StepLock(db, s);
    assert after == SessionsAfter(db, s);
  }

  /** Steps that write at most the one session row they name. */
  predicate OneRow(s: Step) {
    s.MarkTerminal? || s.Heartbeat? || s.RequestCancel? || s.FinalizeCancel? || s.FinalizeFailure?
  }

  lemma {:induction false} WrittenRow(db: Db, s: Step, id: nat)
    requires IdsBelow(db) && LockUnique(db.sessions) && OneRow(s) && s.id == id && id in db.sessions
    ensures var after := db.sessions[id := RowStep(db, s, id, db.sessions[id])];
      Next(db, s) == db.(sessions := after) && LockUnique(after)
  {
    StepRows(db, s);
    StepLock(db, s);
    assert db.sessions[id := RowStep(db, s, id, db.sessions[id])] == SessionsAfter(db, s);
  }
}
