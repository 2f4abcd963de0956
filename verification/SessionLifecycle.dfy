/** Crawl sessions in the database: the per-connection lock, leases and the reaper,
    two-phase cancellation, device revocation, and single-use schedule claims. Every
    database transaction is one atomic step; any client may take any step at any time. */
module SessionLifecycle {
  import opened Basics

  datatype Status =
    | Starting | LoggingIn | Navigating | WaitingForOtp | Extracting
    | Cancelling | Completed | Failed | Cancelled

  predicate Active(s: Status) {
    s.Starting? || s.LoggingIn? || s.Navigating? || s.WaitingForOtp? || s.Extracting?
  }

  /** Statuses that hold the one-crawl-per-connection lock. */
  predicate Locked(s: Status) {
    Active(s) || s.Cancelling?
  }

  /** `done` holds the success flags of the session's done events. */
  datatype Session = Session(
    connection: nat,
    status: Status,
    heartbeatAt: int,
    leaseExpiresAt: Option<int>,
    done: set<bool>,
    promotionReady: bool,
    device: Option<nat>)

  datatype ConnectionStatus = Connecting | Connected | Syncing | NeedsReauth | Error | Disabled

  predicate Recoverable(s: ConnectionStatus) {
    s.Connected? || s.Connecting? || s.Error? || s.Syncing?
  }

  datatype Connection = Connection(
    owner: string,
    enabled: bool,
    revision: int,
    claim: Option<string>,
    status: ConnectionStatus)

  datatype Device = Device(owner: string, hashedToken: string, revoked: bool)

  /** What a tick put on the queue with a claim token. */
  datatype Issue = Issue(connection: nat, revision: int)

  /** A session opened with a claim token, and the schedule revision it ran under. */
  datatype Opening = Opening(token: string, session: nat, connection: nat, revision: int)

  /** The rows, and the history of claims issued, sessions opened with them and
      sessions reaped. */
  datatype Db = Db(
    connections: map<nat, Connection>,
    sessions: map<nat, Session>,
    devices: map<nat, Device>,
    nextSession: nat,
    issued: map<string, Issue>,
    openings: seq<Opening>,
    reaped: set<nat>)

  datatype Step =
    | Create(connection: nat, now: int, leaseMs: int, revision: Option<int>, claim: Option<string>)
    | RestoreClaim(connection: nat, expected: int, token: string, prior: ConnectionStatus)
    | MarkTerminal(id: nat, success: bool)
    | Heartbeat(id: nat, now: int, leaseMs: int)
    | Reap(staleMs: int, now: int)
    | RequestCancel(id: nat)
    | FinalizeCancel(id: nat)
    | FinalizeFailure(id: nat)
    | EditSchedule(connection: nat, owner: string, enable: Option<bool>)
    | DeleteConnection(connection: nat, owner: string)
    | Revoke(device: nat, owner: string, credential: Option<string>)
    // the environment: scheduler, engine and crawl bookkeeping
    | Tick(connection: nat, token: string)
    | RollBack(connection: nat, expected: int, token: string, prior: ConnectionStatus)
    | SetStatus(connection: nat, status: ConnectionStatus)
    | Progress(id: nat, report: Option<Status>, now: int)
    | EngineBeat(id: nat, now: int)
    | Complete(id: nat, success: bool)
    | BindDevice(id: nat, device: nat)

  // ------------------------------------------------------------- session rows

  predicate Reapable(row: Session, staleMs: int, now: int) {
    && Active(row.status)
    && row.heartbeatAt < now - staleMs
    && (row.leaseExpiresAt.None? || row.leaseExpiresAt.value < now)
    && row.done == {}
  }

  predicate Cancellable(row: Session) {
    Active(row.status) && !row.promotionReady && true !in row.done
  }

  /** The engine's completion: cancellation owns the outcome once it committed. */
  function CompleteRow(row: Session, success: bool): Session {
    if row.status.Cancelling? || row.status.Cancelled? then row.(done := row.done + {false})
    else if !Active(row.status) then row
    else if success then row.(done := row.done + {true}, promotionReady := true)
    else row.(done := row.done + {false}, status := Failed)
  }

  predicate DeviceMatches(db: Db, device: nat, owner: string, credential: Option<string>) {
    && device in db.devices
    && db.devices[device].owner == owner
    && (credential.Some? && credential.value != "" ==> db.devices[device].hashedToken == credential.value)
    && !db.devices[device].revoked
  }

  predicate DeviceUsable(db: Db, device: nat) {
    device in db.devices && !db.devices[device].revoked
  }

  /** What a step does to one session row. */
  function RowStep(db: Db, s: Step, id: nat, row: Session): Session {
    match s
    case MarkTerminal(k, success) =>
      if k == id && Active(row.status) then row.(status := if success then Completed else Failed) else row
    case Heartbeat(k, now, leaseMs) =>
      if k == id then row.(heartbeatAt := now, leaseExpiresAt := Some(now + leaseMs)) else row
    case Reap(staleMs, now) => if Reapable(row, staleMs, now) then row.(status := Failed) else row
    case RequestCancel(k) => if k == id && Cancellable(row) then row.(status := Cancelling) else row
    case FinalizeCancel(k) => if k == id && row.status.Cancelling? then row.(status := Cancelled) else row
    case FinalizeFailure(k) => if k == id && row.status.Cancelling? then row.(status := Failed) else row
    case Revoke(device, owner, credential) =>
      if DeviceMatches(db, device, owner, credential) && row.device == Some(device) && Active(row.status)
      then row.(status := Cancelling) else row
    case Progress(k, report, now) =>
      if k == id && Active(row.status)
      then row.(status := if report.Some? then report.value else row.status, heartbeatAt := now) else row
    case EngineBeat(k, now) => if k == id && Active(row.status) then row.(heartbeatAt := now) else row
    case Complete(k, success) => if k == id then CompleteRow(row, success) else row
    case BindDevice(k, device) => if k == id && DeviceUsable(db, device) then row.(device := Some(device)) else row
    case _ => row
  }

  // ---------------------------------------------------------- connection rows

  predicate LockHeld(db: Db, connection: nat) {
    exists id :: id in db.sessions && Holds(db.sessions[id], connection)
  }

  predicate Holds(row: Session, connection: nat) {
    row.connection == connection && Locked(row.status)
  }

  /** The schedule fence in front of a scheduled crawl. */
  predicate ClaimAccepted(db: Db, connection: nat, revision: int, claim: Option<string>) {
    && connection in db.connections
    && db.connections[connection].enabled
    && db.connections[connection].revision == revision
    && claim.Some? && claim.value != ""
    && db.connections[connection].claim == claim
  }

  /** createCrawlSession returns an id: the fence lets the job through, the connection
      exists, and the unique index finds no locked session of it. */
  predicate Opens(db: Db, connection: nat, revision: Option<int>, claim: Option<string>) {
    && (revision.Some? ==> ClaimAccepted(db, connection, revision.value, claim))
    && connection in db.connections
    && !LockHeld(db, connection)
  }

  predicate Restores(db: Db, connection: nat, expected: int, token: string) {
    && connection in db.connections
    && db.connections[connection].claim in {None, Some(token)}
    && !(db.connections[connection].enabled && db.connections[connection].revision == expected)
    && db.connections[connection].status.Syncing?
    && !LockHeld(db, connection)
  }

  predicate ExactClaim(c: Connection, expected: int, token: string) {
    c.revision == expected && c.claim == Some(token)
  }

  predicate RollsBack(db: Db, connection: nat, expected: int, token: string) {
    && connection in db.connections
    && (ExactClaim(db.connections[connection], expected, token)
        || (db.connections[connection].claim.None?
            && (db.connections[connection].revision != expected || !db.connections[connection].enabled)))
    && !LockHeld(db, connection)
  }

  predicate Edits(db: Db, connection: nat, owner: string) {
    connection in db.connections && db.connections[connection].owner == owner
  }

  predicate Ticks(db: Db, connection: nat, token: string) {
    && connection in db.connections
    && db.connections[connection].enabled && Recoverable(db.connections[connection].status)
    && token != "" && token !in db.issued
  }

  function NewSession(connection: nat, now: int, leaseMs: int): Session {
    Session(connection, Starting, now, Some(now + leaseMs), {}, false, None)
  }

  function ConnectionsAfter(db: Db, s: Step): map<nat, Connection> {
    match s
    case Create(c, _, _, revision, claim) =>
      if revision.Some? && Opens(db, c, revision, claim)
      then db.connections[c := db.connections[c].(claim := None)] else db.connections
    case RestoreClaim(c, expected, token, prior) =>
      if Restores(db, c, expected, token)
      then db.connections[c := db.connections[c].(status := prior)] else db.connections
    case EditSchedule(c, owner, enable) =>
      if Edits(db, c, owner)
      then db.connections[c := Edited(db.connections[c], enable)] else db.connections
    case DeleteConnection(c, owner) =>
      if Edits(db, c, owner) && !LockHeld(db, c) then db.connections - {c} else db.connections
    case Tick(c, token) =>
      if Ticks(db, c, token)
      then db.connections[c := db.connections[c].(status := Syncing, claim := Some(token))] else db.connections
    case RollBack(c, expected, token, prior) =>
      if RollsBack(db, c, expected, token)
      then db.connections[c := RolledBack(db.connections[c], expected, token, prior)] else db.connections
    case SetStatus(c, status) =>
      if c in db.connections then db.connections[c := db.connections[c].(status := status)] else db.connections
    case _ => db.connections
  }

  /** A schedule edit bumps the revision and voids the outstanding claim. */
  function Edited(c: Connection, enable: Option<bool>): Connection {
    c.(enabled := if enable.Some? then enable.value else c.enabled, revision := c.revision + 1, claim := None)
  }

  function RolledBack(c: Connection, expected: int, token: string, prior: ConnectionStatus): Connection {
    c.(status := if c.status.Syncing? then prior else c.status,
       claim := if ExactClaim(c, expected, token) then None else c.claim)
  }

  function SessionsAfter(db: Db, s: Step): map<nat, Session> {
    match s
    case Create(c, now, leaseMs, revision, claim) =>
      if Opens(db, c, revision, claim)
      then db.sessions[db.nextSession := NewSession(c, now, leaseMs)] else db.sessions
    case DeleteConnection(c, owner) =>
      if Edits(db, c, owner) && !LockHeld(db, c)
      then map id | id in db.sessions && db.sessions[id].connection != c :: db.sessions[id] else db.sessions
    case _ => map id | id in db.sessions :: RowStep(db, s, id, db.sessions[id])
  }

  function DevicesAfter(db: Db, s: Step): map<nat, Device> {
    if s.Revoke? && DeviceMatches(db, s.device, s.owner, s.credential)
    then db.devices[s.device := db.devices[s.device].(revoked := true)] else db.devices
  }

  function OpenedAfter(db: Db, s: Step): seq<Opening> {
    if s.Create? && s.revision.Some? && Opens(db, s.connection, s.revision, s.claim)
    then db.openings + [Opening(s.claim.value, db.nextSession, s.connection, s.revision.value)] else db.openings
  }

  function Next(db: Db, s: Step): Db {
    Db(ConnectionsAfter(db, s), SessionsAfter(db, s), DevicesAfter(db, s),
       if s.Create? && Opens(db, s.connection, s.revision, s.claim) then db.nextSession + 1 else db.nextSession,
       if s.Tick? && Ticks(db, s.connection, s.token)
       then db.issued[s.token := Issue(s.connection, db.connections[s.connection].revision)] else db.issued,
       OpenedAfter(db, s),
       if s.Reap? then db.reaped + set id | id in db.sessions && Reapable(db.sessions[id], s.staleMs, s.now)
       else db.reaped)
  }

  function Run(db: Db, steps: seq<Step>): Db
    decreases |steps|
  {
    if steps == [] then db else Run(Next(db, steps[0]), steps[1..])
  }

  /** Any connections without an outstanding claim, any devices, no sessions yet. */
  predicate Fresh(db: Db) {
    && (forall c :: c in db.connections ==> db.connections[c].claim.None?)
    && db.sessions == map[] && db.openings == [] && db.issued == map[] && db.reaped == {}
  }

  // ---------------------------------------------------------- rows over time

  /** How a session row may change. */
  predicate Follows(x: Session, y: Session) {
    && y.connection == x.connection
    && (!Locked(x.status) ==> y.status == x.status)
    && (x.status.Cancelling? ==> y.status.Cancelling? || y.status.Cancelled? || y.status.Failed?)
    && x.done <= y.done && (x.promotionReady ==> y.promotionReady)
    && (x.status.Failed? ==> y.done == x.done)
    && (true in y.done && true !in x.done ==> Active(x.status))
  }

  /** The surviving rows of `p` changed as allowed in `q`. */
  predicate RowsFollow(p: map<nat, Session>, q: map<nat, Session>) {
    forall id :: id in p && id in q ==> Follows(p[id], q[id])
  }

  lemma {:induction false} RowFollows(db: Db, s: Step, id: nat, row: Session)
    ensures Follows(row, RowStep(db, s, id, row))
  {
  }

  lemma {:induction false} FollowsTransitive(x: Session, y: Session, z: Session)
    requires Follows(x, y) && Follows(y, z)
    ensures Follows(x, z)
  {
  }

  // --------------------------------------------------------------- the lock

  predicate IdsBelow(db: Db) {
    forall id :: id in db.sessions ==> id < db.nextSession
  }

  predicate BothHold(x: Session, y: Session) {
    Locked(x.status) && Locked(y.status) && x.connection == y.connection
  }

  /** At most one locked session per connection. */
  predicate LockUnique(sessions: map<nat, Session>) {
    forall i, j :: i in sessions && j in sessions && i != j ==> !BothHold(sessions[i], sessions[j])
  }

  lemma {:induction false} StepRows(db: Db, s: Step)
    requires IdsBelow(db)
    ensures IdsBelow(Next(db, s)) && db.nextSession <= Next(db, s).nextSession
    ensures RowsFollow(db.sessions, Next(db, s).sessions)
    ensures forall id :: id in Next(db, s).sessions && id !in db.sessions ==>
              && id == db.nextSession && s.Create? && Opens(db, s.connection, s.revision, s.claim)
              && Next(db, s).sessions[id] == NewSession(s.connection, s.now, s.leaseMs)
  {
    var q := Next(db, s).sessions;
    forall id | id in db.sessions && id in q ensures Follows(db.sessions[id], q[id]) {
      RowFollows(db, s, id, db.sessions[id]);
    }
  }

  lemma {:induction false} StepLock(db: Db, s: Step)
    requires IdsBelow(db) && LockUnique(db.sessions)
    ensures LockUnique(Next(db, s).sessions)
  {
    var q := Next(db, s).sessions;
    StepRows(db, s);
    forall i, j | i in q && j in q && i != j ensures !BothHold(q[i], q[j]) {
      if i in db.sessions && j in db.sessions {
        assert !BothHold(db.sessions[i], db.sessions[j]);
        assert Follows(db.sessions[i], q[i]) && Follows(db.sessions[j], q[j]);
      } else if i in db.sessions {
        assert Follows(db.sessions[i], q[i]);
        assert !Holds(db.sessions[i], q[j].connection);
      } else if j in db.sessions {
        assert Follows(db.sessions[j], q[j]);
        assert !Holds(db.sessions[j], q[i].connection);
      }
    }
  }

  lemma {:induction false} RunRows(db: Db, steps: seq<Step>)
    requires IdsBelow(db)
    ensures IdsBelow(Run(db, steps)) && db.nextSession <= Run(db, steps).nextSession
    ensures RowsFollow(db.sessions, Run(db, steps).sessions)
    ensures forall id :: id in Run(db, steps).sessions && id < db.nextSession ==> id in db.sessions
    decreases |steps|
  {
    if steps != [] {
      var mid, last := Next(db, steps[0]), Run(db, steps);
      StepRows(db, steps[0]);
      RunRows(mid, steps[1..]);
      forall id | id in db.sessions && id in last.sessions ensures Follows(db.sessions[id], last.sessions[id]) {
        assert id in mid.sessions;
        FollowsTransitive(db.sessions[id], mid.sessions[id], last.sessions[id]);
      }
    }
  }

  lemma {:induction false} RunLock(db: Db, steps: seq<Step>)
    requires IdsBelow(db) && LockUnique(db.sessions)
    ensures LockUnique(Run(db, steps).sessions)
    decreases |steps|
  {
    if steps != [] {
      StepRows(db, steps[0]);
      StepLock(db, steps[0]);
      RunLock(Next(db, steps[0]), steps[1..]);
    }
  }

  /** However creates, progress, completions, reaps, cancellations, deletions and
      revocations interleave, no connection has two locked sessions. */
  lemma {:induction false} OneLockedSession(db: Db, steps: seq<Step>, i: nat, j: nat)
    requires Fresh(db) && i in Run(db, steps).sessions && j in Run(db, steps).sessions && i != j
    ensures !BothHold(Run(db, steps).sessions[i], Run(db, steps).sessions[j])
  {
    RunLock(db, steps);
  }

  /** A terminal status never changes again, and a session that entered `cancelling`
      can only end cancelled or failed. */
  lemma {:induction false} OutcomesAreFinal(db: Db, steps: seq<Step>, id: nat)
    requires IdsBelow(db) && id in db.sessions && id in Run(db, steps).sessions
    ensures var was, now := db.sessions[id].status, Run(db, steps).sessions[id].status;
      && (!Locked(was) ==> now == was)
      && (was.Cancelling? ==> now.Cancelling? || now.Cancelled? || now.Failed?)
  {
    RunRows(db, steps);
    assert Follows(db.sessions[id], Run(db, steps).sessions[id]);
  }

  // ------------------------------------------------- where a status comes from

  predicate Reports(s: Step, id: nat, status: Status) {
    s.Progress? && s.id == id && s.report == Some(status)
  }

  predicate CompletesIt(s: Step, id: nat) {
    s == MarkTerminal(id, true) || Reports(s, id, Completed)
  }

  predicate CancelsIt(s: Step, id: nat) {
    s == FinalizeCancel(id) || Reports(s, id, Cancelled)
  }

  predicate FailsIt(s: Step, id: nat) {
    s == MarkTerminal(id, false) || s.Reap? || s == FinalizeFailure(id) || s == Complete(id, false) || Reports(s, id, Failed)
  }

  /** The first step that takes the session out of the locked statuses. */
  function EndingStep(db: Db, steps: seq<Step>, id: nat): Option<Step>
    decreases |steps|
  {
    if steps == [] then None
    else
      var next := Next(db, steps[0]);
      if id in db.sessions && Locked(db.sessions[id].status) && id in next.sessions && !Locked(next.sessions[id].status)
      then Some(steps[0])
      else EndingStep(next, steps[1..], id)
  }

  /** A status and the step that ended the session agree. */
  predicate Explains(ending: Option<Step>, id: nat, status: Status) {
    && (Locked(status) <==> ending.None?)
    && (status.Completed? <==> ending.Some? && CompletesIt(ending.value, id))
    && (status.Cancelled? <==> ending.Some? && CancelsIt(ending.value, id))
    && (status.Failed? <==> ending.Some? && FailsIt(ending.value, id))
  }

  lemma {:induction false} EndExplained(db: Db, s: Step, id: nat, row: Session)
    requires Locked(row.status) && !Locked(RowStep(db, s, id, row).status)
    ensures Explains(Some(s), id, RowStep(db, s, id, row).status)
  {
  }

  /** A session that is locked, or not created yet. */
  predicate Unended(db: Db, id: nat) {
    if id in db.sessions then Locked(db.sessions[id].status) else id >= db.nextSession
  }

  lemma {:induction false} UnendedStep(db: Db, s: Step, id: nat)
    requires IdsBelow(db) && Unended(db, id) && id in Next(db, s).sessions
    ensures IdsBelow(Next(db, s))
    ensures Locked(Next(db, s).sessions[id].status) ==> Unended(Next(db, s), id)
    ensures !Locked(Next(db, s).sessions[id].status) ==>
              id in db.sessions && Locked(db.sessions[id].status) && Explains(Some(s), id, Next(db, s).sessions[id].status)
  {
    StepRows(db, s);
    if id in db.sessions {
      NextRow(db, s, id);
      if !Locked(Next(db, s).sessions[id].status) {
        EndExplained(db, s, id, db.sessions[id]);
      }
    }
  }

  /** A surviving row is the row step's result. */
  lemma {:induction false} NextRow(db: Db, s: Step, id: nat)
    requires IdsBelow(db) && id in db.sessions && id in Next(db, s).sessions
    ensures Next(db, s).sessions[id] == RowStep(db, s, id, db.sessions[id])
  {
  }

  lemma {:induction false} EndingExplains(db: Db, steps: seq<Step>, id: nat)
    requires IdsBelow(db) && Unended(db, id) && id in Run(db, steps).sessions
    ensures Explains(EndingStep(db, steps, id), id, Run(db, steps).sessions[id].status)
    decreases |steps|
  {
    if steps != [] {
      var next := Next(db, steps[0]);
      StepRows(db, steps[0]);
      RunRows(next, steps[1..]);
      if id in next.sessions {
        UnendedStep(db, steps[0], id);
        if Locked(next.sessions[id].status) {
          EndingExplains(next, steps[1..], id);
        } else {
          assert Follows(next.sessions[id], Run(db, steps).sessions[id]);
        }
      } else {
        assert id >= next.nextSession;
        EndingExplains(next, steps[1..], id);
      }
    }
  }

  /** Where every terminal status comes from, on every run. A session is completed if and
      only if the step that ended it is a positive verdict of the control plane (or a
      progress write reporting it); cancelled if and only if that step finalised a
      cancellation (or reported it); failed if and only if it is a negative verdict, the
      reaper, a finalised failure, a failed completion (or a report of it). */
  lemma {:induction false} TerminalStatusOrigin(db: Db, steps: seq<Step>, id: nat)
    requires Fresh(db) && id in Run(db, steps).sessions
    ensures var status, ending := Run(db, steps).sessions[id].status, EndingStep(db, steps, id);
      && (Locked(status) <==> ending.None?)
      && (status.Completed? <==> ending.Some? && CompletesIt(ending.value, id))
      && (status.Cancelled? <==> ending.Some? && CancelsIt(ending.value, id))
      && (status.Failed? <==> ending.Some? && FailsIt(ending.value, id))
  {
    RunRows(db, steps);
    EndingExplains(db, steps, id);
  }

  /** Exactly which steps start cancelling a session, and which record its success. */
  lemma {:induction false} CancellingExactly(db: Db, s: Step, id: nat)
    requires IdsBelow(db) && id in db.sessions && id in Next(db, s).sessions
    ensures var row, after := db.sessions[id], Next(db, s).sessions[id];
      && (!row.status.Cancelling? ==>
            (after.status.Cancelling? <==>
               && Active(row.status)
               && (|| (s == RequestCancel(id) && !row.promotionReady && true !in row.done)
                   || (s.Revoke? && DeviceMatches(db, s.device, s.owner, s.credential) && row.device == Some(s.device))
                   || Reports(s, id, Cancelling))))
      && (!row.promotionReady ==> (after.promotionReady <==> s == Complete(id, true) && Active(row.status)))
      && (after.device != row.device ==> s.BindDevice? && s.id == id && after.device == Some(s.device))
  {
    NextRow(db, s, id);
  }

  // -------------------------------------------------- done events and devices

  /** A done event of an active session is a success, and success is marked ready. */
  predicate Consistent(row: Session) {
    (Active(row.status) ==> false !in row.done) && (true in row.done <==> row.promotionReady)
  }

  predicate DeviceFree(db: Db, row: Session) {
    Active(row.status) && row.device.Some? ==> DeviceUsable(db, row.device.value)
  }

  predicate ReapedIdle(db: Db, id: nat) {
    id < db.nextSession && (id in db.sessions ==> db.sessions[id].status.Failed? && db.sessions[id].done == {})
  }

  predicate Settled(db: Db) {
    && IdsBelow(db)
    && (forall id :: id in db.sessions ==> Consistent(db.sessions[id]) && DeviceFree(db, db.sessions[id]))
    && (forall id :: id in db.reaped ==> ReapedIdle(db, id))
  }

  lemma {:induction false} RowSettled(db: Db, s: Step, id: nat, row: Session)
    requires Consistent(row) && DeviceFree(db, row)
    ensures Consistent(RowStep(db, s, id, row)) && DeviceFree(Next(db, s), RowStep(db, s, id, row))
  {
  }

  lemma {:induction false} StepReaped(db: Db, s: Step, id: nat)
    requires Settled(db) && id in Next(db, s).reaped
    ensures ReapedIdle(Next(db, s), id)
  {
    StepRows(db, s);
    var q := Next(db, s);
    if id in db.sessions && id in q.sessions {
      assert Follows(db.sessions[id], q.sessions[id]);
    }
    if id !in db.reaped {
      assert id in db.sessions && Reapable(db.sessions[id], s.staleMs, s.now);
    } else {
      assert ReapedIdle(db, id);
    }
  }

  lemma {:induction false} StepSettled(db: Db, s: Step)
    requires Settled(db)
    ensures Settled(Next(db, s))
  {
    StepRows(db, s);
    var q := Next(db, s);
    forall id | id in q.sessions ensures Consistent(q.sessions[id]) && DeviceFree(q, q.sessions[id]) {
      if id in db.sessions {
        RowSettled(db, s, id, db.sessions[id]);
      }
    }
    forall id | id in q.reaped ensures ReapedIdle(q, id) {
      StepReaped(db, s, id);
    }
  }

  lemma {:induction false} RunSettled(db: Db, steps: seq<Step>)
    requires Settled(db)
    ensures Settled(Run(db, steps))
    decreases |steps|
  {
    if steps != [] {
      StepSettled(db, steps[0]);
      RunSettled(Next(db, steps[0]), steps[1..]);
    }
  }

  /** No session is ever both reaped and done: the reaper passes finished work by, and
      a completion arriving after the reaper is rejected. */
  lemma {:induction false} ReapedNeverDone(db: Db, steps: seq<Step>, id: nat)
    requires Fresh(db) && id in Run(db, steps).reaped && id in Run(db, steps).sessions
    ensures Run(db, steps).sessions[id].done == {} && Run(db, steps).sessions[id].status.Failed?
  {
    RunSettled(db, steps);
    assert ReapedIdle(Run(db, steps), id);
  }

  /** No active session is bound to a revoked device. */
  lemma {:induction false} RevokedDevicesIdle(db: Db, steps: seq<Step>, id: nat, device: nat)
    requires Fresh(db) && id in Run(db, steps).sessions
    requires device in Run(db, steps).devices && Run(db, steps).devices[device].revoked
    requires Run(db, steps).sessions[id].device == Some(device)
    ensures !Active(Run(db, steps).sessions[id].status)
  {
    RunSettled(db, steps);
    assert DeviceFree(Run(db, steps), Run(db, steps).sessions[id]);
  }

  // ------------------------------------------ finished work and cancellation

  /** A row whose success is recorded and which is neither cancelled nor being cancelled.
      It may still end failed, by the control plane's verdict or a progress write. */
  predicate Uncancelled(row: Session) {
    row.promotionReady && !row.status.Cancelling? && !row.status.Cancelled?
  }

  /** The step revokes the very device an active row is bound to. */
  predicate RevokesOwnDevice(db: Db, s: Step, row: Session) {
    s.Revoke? && DeviceMatches(db, s.device, s.owner, s.credential) && row.device == Some(s.device) && Active(row.status)
  }

  /** A progress write that itself reports a cancellation of an active row. */
  predicate ReportsCancellation(s: Step, id: nat, row: Session) {
    s.Progress? && s.id == id && Active(row.status) && s.report in {Some(Cancelling), Some(Cancelled)}
  }

  lemma {:induction false} SparedRow(db: Db, s: Step, id: nat, row: Session)
    requires Consistent(row) && Uncancelled(row)
    ensures Uncancelled(RowStep(db, s, id, row)) <==> !RevokesOwnDevice(db, s, row) && !ReportsCancellation(s, id, row)
    ensures s.Reap? ==> !Reapable(row, s.staleMs, s.now)
  {
  }

  /** Exactly what cancels work whose success is recorded: revoking the device its session
      is bound to, or a progress write that reports the cancellation. An operator's
      cancellation, the reaper and every other revocation pass it by. */
  lemma {:induction false} FinishedLostExactly(db: Db, s: Step, id: nat)
    requires Settled(db) && id in db.sessions && Uncancelled(db.sessions[id]) && id in Next(db, s).sessions
    ensures Uncancelled(Next(db, s).sessions[id])
            <==> !RevokesOwnDevice(db, s, db.sessions[id]) && !ReportsCancellation(s, id, db.sessions[id])
    ensures id !in db.reaped ==> id !in Next(db, s).reaped
  {
    SparedRow(db, s, id, db.sessions[id]);
  }

  lemma {:induction false} RunFour(db: Db, a: Step, b: Step, c: Step, d: Step)
    ensures Run(db, [a, b, c, d]) == Next(Next(Next(Next(db, a), b), c), d)
  {
    var d1 := Next(db, a);
    var d2 := Next(d1, b);
    var d3 := Next(d2, c);
    assert [a, b, c, d][1..] == [b, c, d] && [b, c, d][1..] == [c, d] && [c, d][1..] == [d] && [d][1..] == [];
    assert Run(d3, [d]) == Next(d3, d);
    assert Run(d2, [c, d]) == Run(d3, [d]);
    assert Run(d1, [b, c, d]) == Run(d2, [c, d]);
  }

  /** An active session on a usable device, finished or not. */
  ghost predicate WorksOn(db: Db, id: nat, device: nat, finished: bool) {
    && id in db.sessions && Active(db.sessions[id].status) && db.sessions[id].promotionReady == finished
    && db.sessions[id].device == Some(device) && DeviceUsable(db, device)
  }

  lemma {:induction false} CreatedAndBound(db: Db, connection: nat, device: nat)
    requires Fresh(db) && connection in db.connections && DeviceUsable(db, device)
    ensures var d1 := Next(db, Create(connection, 0, 10, None, None));
      WorksOn(Next(d1, BindDevice(db.nextSession, device)), db.nextSession, device, false)
  {
    var d1 := Next(db, Create(connection, 0, 10, None, None));
    assert d1.sessions[db.nextSession] == NewSession(connection, 0, 10);
  }

  lemma {:induction false} FinishesIt(db: Db, id: nat, device: nat)
    requires WorksOn(db, id, device, false)
    ensures WorksOn(Next(db, Complete(id, true)), id, device, true)
  {
  }

  lemma {:induction false} RevokesIt(db: Db, id: nat, device: nat)
    requires WorksOn(db, id, device, true)
    ensures var q := Next(db, Revoke(device, db.devices[device].owner, None));
      id in q.sessions && q.sessions[id].status.Cancelling? && q.sessions[id].promotionReady
  {
  }

  /** For instance: a session bound to a phone records its success, the phone is revoked,
      and the finished session is being cancelled. */
  lemma {:induction false} RevokeCancelsFinished(db: Db, connection: nat, device: nat)
    requires Fresh(db) && connection in db.connections && DeviceUsable(db, device)
    ensures var id, owner := db.nextSession, db.devices[device].owner;
      var q := Run(db, [Create(connection, 0, 10, None, None), BindDevice(id, device), Complete(id, true), Revoke(device, owner, None)]);
      id in q.sessions && q.sessions[id].status.Cancelling? && q.sessions[id].promotionReady
  {
    var id := db.nextSession;
    var d2 := Next(Next(db, Create(connection, 0, 10, None, None)), BindDevice(id, device));
    CreatedAndBound(db, connection, device);
    FinishesIt(d2, id, device);
    RevokesIt(Next(d2, Complete(id, true)), id, device);
    RunFour(db, Create(connection, 0, 10, None, None), BindDevice(id, device), Complete(id, true),
            Revoke(device, db.devices[device].owner, None));
  }

  /** Steps under which a session is only ever bound to devices in `own`, none of those is
      revoked, and no progress write reports its cancellation. */
  predicate SparesDevices(s: Step, id: nat, own: set<nat>) {
    && (s.BindDevice? && s.id == id ==> s.device in own)
    && (s.Revoke? ==> s.device !in own)
    && (s.Progress? && s.id == id ==> s.report !in {Some(Cancelling), Some(Cancelled)})
  }

  predicate BoundTo(row: Session, own: set<nat>) {
    row.device.Some? ==> row.device.value in own
  }

  lemma {:induction false} SparedStep(db: Db, s: Step, id: nat, own: set<nat>)
    requires Settled(db) && id in db.sessions && Uncancelled(db.sessions[id]) && id !in db.reaped
    requires BoundTo(db.sessions[id], own) && SparesDevices(s, id, own)
    ensures id !in Next(db, s).reaped
    ensures id in Next(db, s).sessions ==> Uncancelled(Next(db, s).sessions[id]) && BoundTo(Next(db, s).sessions[id], own)
  {
    SparedRow(db, s, id, db.sessions[id]);
  }

  /** Over whole runs, whatever other devices are revoked: while no device the session is
      or becomes bound to is revoked, recorded success is neither cancelled nor reaped. */
  lemma {:induction false} FinishedWorkSurvives(db: Db, steps: seq<Step>, id: nat, own: set<nat>)
    requires Settled(db) && id in db.sessions && Uncancelled(db.sessions[id]) && id !in db.reaped
    requires BoundTo(db.sessions[id], own) && forall k :: 0 <= k < |steps| ==> SparesDevices(steps[k], id, own)
    ensures id !in Run(db, steps).reaped
    ensures id in Run(db, steps).sessions ==> Uncancelled(Run(db, steps).sessions[id])
    decreases |steps|
  {
    if steps != [] {
      var mid := Next(db, steps[0]);
      assert SparesDevices(steps[0], id, own);
      SparedStep(db, steps[0], id, own);
      StepSettled(db, steps[0]);
      if id in mid.sessions {
        FinishedWorkSurvives(mid, steps[1..], id, own);
      } else {
        StepRows(db, steps[0]);
        GoneForGood(mid, steps[1..], id);
      }
    }
  }

  /** A deleted session never comes back and is never reaped. */
  lemma {:induction false} GoneForGood(db: Db, steps: seq<Step>, id: nat)
    requires IdsBelow(db) && id !in db.sessions && id < db.nextSession && id !in db.reaped
    ensures id !in Run(db, steps).sessions && id !in Run(db, steps).reaped
    decreases |steps|
  {
    if steps != [] {
      StepRows(db, steps[0]);
      GoneForGood(Next(db, steps[0]), steps[1..], id);
    }
  }

  // ------------------------------------------------------------------ leases

  /** When a step happens, for the steps that read a clock. */
  function TimeOf(s: Step): Option<int> {
    match s
    case Create(_, now, _, _, _) => Some(now)
    case Heartbeat(_, now, _) => Some(now)
    case Reap(_, now) => Some(now)
    case Progress(_, _, now) => Some(now)
    case EngineBeat(_, now) => Some(now)
    case _ => None
  }

  /** One clock: times never run backwards from `clock` on. */
  predicate OneClock(steps: seq<Step>, clock: int)
    decreases |steps|
  {
    steps == [] ||
    var t := TimeOf(steps[0]);
    if t.None? then OneClock(steps[1..], clock) else clock <= t.value && OneClock(steps[1..], t.value)
  }

  /** Heartbeats of `id` renew the same lease, each within it of the one before. */
  predicate Renewed(steps: seq<Step>, id: nat, leaseMs: int, last: int)
    decreases |steps|
  {
    steps == [] ||
    if steps[0].Heartbeat? && steps[0].id == id
    then steps[0].leaseMs == leaseMs && steps[0].now - last <= leaseMs && Renewed(steps[1..], id, leaseMs, steps[0].now)
    else Renewed(steps[1..], id, leaseMs, last)
  }

  /** The time of the last heartbeat of `id`, `last` when there is none. */
  function LastBeat(steps: seq<Step>, id: nat, last: int): int
    decreases |steps|
  {
    if steps == [] then last
    else LastBeat(steps[1..], id, if steps[0].Heartbeat? && steps[0].id == id then steps[0].now else last)
  }

  /** The reaper stops one lease after the last renewal. */
  predicate ReapsBy(steps: seq<Step>, deadline: int) {
    forall k :: 0 <= k < |steps| && steps[k].Reap? ==> steps[k].now <= deadline
  }

  /** Until the next renewal the clock is inside the lease, or no renewal follows. */
  lemma {:induction false} ClockInsideLease(steps: seq<Step>, id: nat, leaseMs: int, last: int, clock: int)
    requires OneClock(steps, clock) && Renewed(steps, id, leaseMs, last)
    ensures clock <= last + leaseMs || LastBeat(steps, id, last) == last
    decreases |steps|
  {
    if steps != [] && !(steps[0].Heartbeat? && steps[0].id == id) {
      ClockInsideLease(steps[1..], id, leaseMs, last, if TimeOf(steps[0]).None? then clock else TimeOf(steps[0]).value);
    }
  }

  lemma {:induction false} LeasedStep(db: Db, s: Step, id: nat, leaseMs: int, last: int)
    requires IdsBelow(db) && id in db.sessions && id !in db.reaped
    requires db.sessions[id].leaseExpiresAt == Some(last + leaseMs)
    requires s.Reap? ==> s.now <= last + leaseMs
    requires s.Heartbeat? && s.id == id ==> s.leaseMs == leaseMs
    ensures var q := Next(db, s);
      && id !in q.reaped
      && (id in q.sessions ==>
            q.sessions[id].leaseExpiresAt == Some((if s.Heartbeat? && s.id == id then s.now else last) + leaseMs))
  {
  }

  /** A session whose heartbeats renew one lease in time is not reaped up to one lease
      after the last of them, whatever the staleness threshold and the reaper's timing. */
  lemma {:induction false} LeasedSessionSurvives(db: Db, steps: seq<Step>, id: nat, leaseMs: int, last: int, clock: int)
    requires IdsBelow(db) && id in db.sessions && id !in db.reaped
    requires db.sessions[id].leaseExpiresAt == Some(last + leaseMs)
    requires OneClock(steps, clock) && Renewed(steps, id, leaseMs, last)
    requires ReapsBy(steps, LastBeat(steps, id, last) + leaseMs)
    ensures id !in Run(db, steps).reaped
    decreases |steps|
  {
    if steps != [] {
      var s, rest := steps[0], steps[1..];
      var at := if s.Heartbeat? && s.id == id then s.now else last;
      var then_ := if TimeOf(s).None? then clock else TimeOf(s).value;
      if s.Reap? {
        ClockInsideLease(rest, id, leaseMs, last, s.now);
      }
      LeasedStep(db, s, id, leaseMs, last);
      StepRows(db, s);
      forall k | 0 <= k < |rest| && rest[k].Reap? ensures rest[k].now <= LastBeat(rest, id, at) + leaseMs {
        assert rest[k] == steps[k + 1];
      }
      if id in Next(db, s).sessions {
        LeasedSessionSurvives(Next(db, s), rest, id, leaseMs, at, then_);
      } else {
        GoneForGood(Next(db, s), rest, id);
      }
    }
  }

  /** The same from the session's creation on. */
  lemma {:induction false} NeverReapedWhileRenewed(db: Db, create: Step, steps: seq<Step>)
    requires Settled(db) && create.Create? && Opens(db, create.connection, create.revision, create.claim)
    requires OneClock(steps, create.now) && Renewed(steps, db.nextSession, create.leaseMs, create.now)
    requires ReapsBy(steps, LastBeat(steps, db.nextSession, create.now) + create.leaseMs)
    ensures db.nextSession !in Run(Next(db, create), steps).reaped
  {
    var id := db.nextSession;
    assert id !in db.reaped by {
      assert id in db.reaped ==> ReapedIdle(db, id);
    }
    StepRows(db, create);
    LeasedSessionSurvives(Next(db, create), steps, id, create.leaseMs, create.now, create.now);
  }

  /** When a step shows that the session's worker is alive. */
  function AliveAt(db: Db, s: Step, id: nat): Option<int> {
    match s
    case Create(c, now, _, revision, claim) => if id == db.nextSession && Opens(db, c, revision, claim) then Some(now) else None
    case Heartbeat(k, now, _) => if k == id then Some(now) else None
    case Progress(k, _, now) => if k == id && id in db.sessions && Active(db.sessions[id].status) then Some(now) else None
    case EngineBeat(k, now) => if k == id && id in db.sessions && Active(db.sessions[id].status) then Some(now) else None
    case _ => None
  }

  /** The last time the session's worker was seen alive in a run, `last` at its start. */
  function LastAlive(db: Db, steps: seq<Step>, id: nat, last: int): int
    decreases |steps|
  {
    if steps == [] then last
    else
      var t := AliveAt(db, steps[0], id);
      LastAlive(Next(db, steps[0]), steps[1..], id, if t.Some? then t.value else last)
  }

  lemma {:induction false} AliveStep(db: Db, s: Step, id: nat, last: int)
    requires IdsBelow(db) && (id in db.sessions ==> db.sessions[id].heartbeatAt == last) && id in Next(db, s).sessions
    ensures var t := AliveAt(db, s, id);
      Next(db, s).sessions[id].heartbeatAt == if t.Some? then t.value else last
  {
    StepRows(db, s);
    if id in db.sessions {
      NextRow(db, s, id);
    }
  }

  lemma {:induction false} HeartbeatIsLastAlive(db: Db, steps: seq<Step>, id: nat, last: int)
    requires IdsBelow(db) && (if id in db.sessions then db.sessions[id].heartbeatAt == last else id >= db.nextSession)
    requires id in Run(db, steps).sessions
    ensures Run(db, steps).sessions[id].heartbeatAt == LastAlive(db, steps, id, last)
    decreases |steps|
  {
    if steps != [] {
      var next, t := Next(db, steps[0]), AliveAt(db, steps[0], id);
      StepRows(db, steps[0]);
      RunRows(next, steps[1..]);
      if id in next.sessions {
        AliveStep(db, steps[0], id, last);
      } else {
        assert id >= next.nextSession;
      }
      HeartbeatIsLastAlive(next, steps[1..], id, if t.Some? then t.value else last);
    }
  }

  /** Exactly whom a reaper run takes, on every run: the active sessions last seen alive
      before its staleness threshold, whose lease is past and which have no done event. */
  lemma {:induction false} ReapsExactly(db: Db, steps: seq<Step>, id: nat, staleMs: int, now: int)
    requires Fresh(db) && id in Run(db, steps).sessions
    ensures var q := Run(db, steps); var row := q.sessions[id]; var after := Next(q, Reap(staleMs, now)).sessions;
      && id in after
      && (after[id] != row <==>
            && Active(row.status) && LastAlive(db, steps, id, 0) < now - staleMs
            && (row.leaseExpiresAt.None? || row.leaseExpiresAt.value < now) && row.done == {})
      && (after[id] != row ==> after[id].status.Failed?)
  {
    RunRows(db, steps);
    HeartbeatIsLastAlive(db, steps, id, 0);
  }

  // ---------------------------------------------------------- schedule claims

  /** An outstanding claim belongs to the current revision of its own, enabled schedule. */
  predicate ClaimCurrent(db: Db, c: nat, row: Connection) {
    row.claim.Some? ==> row.enabled && row.claim.value in db.issued && db.issued[row.claim.value] == Issue(c, row.revision)
  }

  predicate ClaimsCurrent(db: Db) {
    forall c :: c in db.connections ==> ClaimCurrent(db, c, db.connections[c])
  }

  /** A token that was issued and is no longer anybody's outstanding claim. */
  predicate Dead(db: Db, token: string) {
    token in db.issued && forall c :: c in db.connections ==> db.connections[c].claim != Some(token)
  }

  /** Every opening used its token up, for the connection and revision it was issued for. */
  predicate Spent(db: Db, o: Opening) {
    Dead(db, o.token) && db.issued[o.token] == Issue(o.connection, o.revision)
  }

  predicate OpensOnce(openings: seq<Opening>) {
    forall i, j :: 0 <= i < j < |openings| ==> openings[i].token != openings[j].token
  }

  predicate Claimed(db: Db) {
    && ClaimsCurrent(db)
    && (forall k :: 0 <= k < |db.openings| ==> Spent(db, db.openings[k]))
    && OpensOnce(db.openings)
  }

  lemma {:induction false} StepClaims(db: Db, s: Step)
    requires ClaimsCurrent(db)
    ensures ClaimsCurrent(Next(db, s))
    ensures forall t :: t in db.issued ==> t in Next(db, s).issued && Next(db, s).issued[t] == db.issued[t]
  {
  }

  lemma {:induction false} StepDead(db: Db, s: Step, token: string)
    requires ClaimsCurrent(db) && Dead(db, token)
    ensures Dead(Next(db, s), token)
    ensures forall k :: |db.openings| <= k < |Next(db, s).openings| ==> Next(db, s).openings[k].token != token
  {
  }

  /** The opening a step adds, if any, spends a token that was never spent before. */
  lemma {:induction false} StepOpens(db: Db, s: Step)
    requires Claimed(db) && OpenedAfter(db, s) != db.openings
    ensures s.Create? && s.claim.Some? && s.revision.Some?
    ensures Spent(Next(db, s), Opening(s.claim.value, db.nextSession, s.connection, s.revision.value))
    ensures forall k :: 0 <= k < |db.openings| ==> db.openings[k].token != s.claim.value
  {
  }

  lemma {:induction false} StepClaimed(db: Db, s: Step)
    requires Claimed(db)
    ensures Claimed(Next(db, s))
  {
    var q := Next(db, s);
    StepClaims(db, s);
    forall k | 0 <= k < |db.openings| ensures Spent(q, db.openings[k]) {
      assert Spent(db, db.openings[k]);
      StepDead(db, s, db.openings[k].token);
    }
    if OpenedAfter(db, s) != db.openings {
      StepOpens(db, s);
    }
  }

  lemma {:induction false} RunClaimed(db: Db, steps: seq<Step>)
    requires Claimed(db)
    ensures Claimed(Run(db, steps))
    decreases |steps|
  {
    if steps != [] {
      StepClaimed(db, steps[0]);
      RunClaimed(Next(db, steps[0]), steps[1..]);
    }
  }

  /** On every run each claim token opens at most one session, and one of the
      connection and schedule revision the token was issued for. */
  lemma {:induction false} TokensOpenOnce(db: Db, steps: seq<Step>)
    requires Fresh(db)
    ensures OpensOnce(Run(db, steps).openings)
    ensures forall k :: 0 <= k < |Run(db, steps).openings| ==> Spent(Run(db, steps), Run(db, steps).openings[k])
  {
    RunClaimed(db, steps);
  }

  /** A dead token opens nothing on any continuation, however often its job is delivered. */
  lemma {:induction false} DeadTokenOpensNothing(db: Db, steps: seq<Step>, token: string)
    requires Claimed(db) && Dead(db, token)
    ensures Dead(Run(db, steps), token) && |db.openings| <= |Run(db, steps).openings|
    ensures forall k :: |db.openings| <= k < |Run(db, steps).openings| ==> Run(db, steps).openings[k].token != token
    decreases |steps|
  {
    if steps != [] {
      var mid := Next(db, steps[0]);
      StepDead(db, steps[0], token);
      StepClaimed(db, steps[0]);
      DeadTokenOpensNothing(mid, steps[1..], token);
      RunOpenings(mid, steps[1..]);
    }
  }

  lemma {:induction false} RunOpenings(db: Db, steps: seq<Step>)
    ensures |db.openings| <= |Run(db, steps).openings| && Run(db, steps).openings[..|db.openings|] == db.openings
    decreases |steps|
  {
    if steps != [] {
      RunOpenings(Next(db, steps[0]), steps[1..]);
    }
  }

  /** A schedule edit voids every token issued for the connection before it: none of
      them opens a session on any continuation. */
  lemma {:induction false} EditVoidsClaims(db: Db, c: nat, owner: string, enable: Option<bool>, steps: seq<Step>, token: string)
    requires Claimed(db) && Edits(db, c, owner) && token in db.issued && db.issued[token].connection == c
    ensures var after := Run(Next(db, EditSchedule(c, owner, enable)), steps);
      && |db.openings| <= |after.openings|
      && forall k :: |db.openings| <= k < |after.openings| ==> after.openings[k].token != token
  {
    var edited := Next(db, EditSchedule(c, owner, enable));
    StepClaimed(db, EditSchedule(c, owner, enable));
    forall d | d in edited.connections ensures edited.connections[d].claim != Some(token) {
      assert ClaimCurrent(db, d, db.connections[d]);
    }
    DeadTokenOpensNothing(edited, steps, token);
  }

  /** Restoring changes at most the status of its one connection, never while that
      connection's lock is held, and, for the revision and token a tick issued, only
      once that token can no longer open anything. */
  lemma {:induction false} RestoreSparesLockedConnections(db: Db, c: nat, expected: int, token: string, prior: ConnectionStatus)
    requires Claimed(db)
    ensures var q := Next(db, RestoreClaim(c, expected, token, prior));
      && q.sessions == db.sessions
      && (forall d :: d in db.connections && (d != c || LockHeld(db, d)) ==> d in q.connections && q.connections[d] == db.connections[d])
      && (q.connections != db.connections ==> q.connections == db.connections[c := db.connections[c].(status := prior)])
      && (q.connections != db.connections && token in db.issued && db.issued[token] == Issue(c, expected) ==> Dead(q, token))
  {
  }
}
