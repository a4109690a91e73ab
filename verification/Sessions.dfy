/** Web sessions and the blocking of users, one SQL statement at a time. A transaction keeps the rows it has locked
    and the writes it has buffered; it read the clock before it began. Times are in milliseconds. */
module Sessions {
  import opened Wrappers

  type UserId = nat
  type SessionId = nat
  type TransactionId = nat

  const IDLE_LIFETIME_MS := 7 * 24 * 60 * 60 * 1_000
  const ABSOLUTE_LIFETIME_MS := 30 * 24 * 60 * 60 * 1_000
  const TOUCH_INTERVAL_MS := 5 * 60 * 1_000

  datatype Session = Session(
    user: UserId, authenticatedAt: int, lastSeenAt: int, idleExpiresAt: int, absoluteExpiresAt: int, revokedAt: Option<int>)

  /** A successful authentication, at the time that the request read. */
  datatype Event = Authenticated(session: SessionId, at: int)

  /** `users` maps a user to the time of blocking. `issued` holds every session identifier ever committed. */
  datatype Tables = Tables(users: map<UserId, Option<int>>, sessions: map<SessionId, Session>, issued: set<SessionId>, log: seq<Event>)

  datatype Row = UserRow(u: UserId) | SessionRow(s: SessionId)

  /** A token stands for the session whose digest it has. */
  datatype Request =
    | Issue(user: UserId)
    | Authenticate(session: SessionId)
    | Rotate(session: SessionId, user: UserId)
    | Revoke(session: SessionId)
    | RevokeAllForUser(user: UserId)
    | BlockUser(user: UserId)
    | UnblockUser(user: UserId)

  /** In `Selected` a revocation has rows to come to. `Done` is a success, and `Nothing` the return of no result, which
      commits without writes. */
  datatype Stage = Begun | Locked | Changed | Selected | Done | Nothing

  /** `unvisited` holds the selected rows that a revocation has yet to come to. */
  datatype Transaction = Transaction(
    request: Request, now: int, stage: Stage, held: set<Row>, unvisited: set<SessionId>,
    userWrites: map<UserId, Option<int>>, sessionWrites: map<SessionId, Session>)

  datatype State = State(tables: Tables, clock: int, open: map<TransactionId, Transaction>)

  // ----- Pure helpers -----

  function Minimum(first: int, second: int): int {
    if first <= second then first else second
  }

  predicate ActiveAt(row: Session, now: int) {
    && now >= row.authenticatedAt
    && now >= row.lastSeenAt
    && now < row.idleExpiresAt
    && now < row.absoluteExpiresAt
  }

  function NewSession(user: UserId, now: int): Session {
    var absoluteExpiresAt := now + ABSOLUTE_LIFETIME_MS;
    Session(user, now, now, Minimum(now + IDLE_LIFETIME_MS, absoluteExpiresAt), absoluteExpiresAt, None)
  }

  function Touched(row: Session, now: int): Session {
    row.(lastSeenAt := now, idleExpiresAt := Minimum(now + IDLE_LIFETIME_MS, row.absoluteExpiresAt))
  }

  predicate Blocked(t: Tables, u: UserId) {
    u in t.users && t.users[u].Some?
  }

  /** The test of a joined session and user row. */
  predicate Usable(t: Tables, s: SessionId, now: int) {
    && s in t.sessions && t.sessions[s].user in t.users
    && t.sessions[s].revokedAt == None
    && t.users[t.sessions[s].user] == None
    && ActiveAt(t.sessions[s], now)
  }

  function LiveSessions(t: Tables, u: UserId): set<SessionId> {
    set s | s in t.sessions && t.sessions[s].user == u && t.sessions[s].revokedAt == None
  }

  // ----- Statements -----

  datatype Outcome = Wait | Throw | Go(next: Transaction)

  predicate Free(s: State, t: TransactionId, row: Row) {
    forall o :: o in s.open && o != t ==> row !in s.open[o].held
  }

  function Locking(s: State, t: TransactionId, x: Transaction, rows: set<Row>, next: Transaction): Outcome {
    if forall row :: row in rows ==> Free(s, t, row) then Go(next.(held := x.held + rows)) else Wait
  }

  function StepIssue(s: State, t: TransactionId, x: Transaction, newId: SessionId): Outcome
    requires x.request.Issue?
  {
    var u := x.request.user;
    match x.stage
    case Begun =>
      if u !in s.tables.users then Go(x.(stage := Nothing))
      else Locking(s, t, x, {UserRow(u)}, x.(stage := if s.tables.users[u].Some? then Nothing else Locked))
    case Locked =>
      if newId in s.tables.issued then Wait
      else Locking(s, t, x, {SessionRow(newId)}, x.(stage := Done, sessionWrites := map[newId := NewSession(u, x.now)]))
    case _ => Wait
  }

  /** The lookup locks the session and its user. */
  function LookUp(s: State, t: TransactionId, x: Transaction, id: SessionId, accepted: bool): Outcome {
    if id !in s.tables.sessions then Go(x.(stage := Nothing))
    else
      Locking(s, t, x, {SessionRow(id), UserRow(s.tables.sessions[id].user)}, x.(stage := if accepted then Locked else Nothing))
  }

  function StepAuthenticate(s: State, t: TransactionId, x: Transaction): Outcome
    requires x.request.Authenticate?
  {
    var id := x.request.session;
    match x.stage
    case Begun => LookUp(s, t, x, id, Usable(s.tables, id, x.now))
    case Locked =>
      if id !in s.tables.sessions then Go(x.(stage := Nothing))
      else
        var row := s.tables.sessions[id];
        if x.now - row.lastSeenAt < TOUCH_INTERVAL_MS then Go(x.(stage := Done))
        else if row.revokedAt.Some? || row.idleExpiresAt <= x.now || row.absoluteExpiresAt <= x.now then Go(x.(stage := Nothing))
        else Go(x.(stage := Done, sessionWrites := map[id := Touched(row, x.now)]))
    case _ => Wait
  }

  function StepRotate(s: State, t: TransactionId, x: Transaction, newId: SessionId): Outcome
    requires x.request.Rotate?
  {
    var id := x.request.session;
    match x.stage
    case Begun =>
      LookUp(s, t, x, id, Usable(s.tables, id, x.now) && s.tables.sessions[id].user == x.request.user)
    case Locked =>
      if id !in s.tables.sessions || s.tables.sessions[id].revokedAt.Some? then Go(x.(stage := Nothing))
      else Go(x.(stage := Changed, sessionWrites := map[id := s.tables.sessions[id].(revokedAt := Some(x.now))]))
    case Changed =>
      if newId in s.tables.issued then Wait
      else
        Locking(s, t, x, {SessionRow(newId)},
                x.(stage := Done, sessionWrites := x.sessionWrites[newId := NewSession(x.request.user, x.now)]))
    case _ => Wait
  }

  /** An update of several rows first selects them, as they are committed when the statement starts. */
  function Selecting(x: Transaction, ids: set<SessionId>): Transaction {
    x.(stage := if ids == {} then Done else Selected, unvisited := ids)
  }

  /** Then it comes to one row after the other, and waits for its lock. A row that was revoked meanwhile is left alone. */
  function AfterVisit(t: Tables, x: Transaction, id: SessionId): Transaction {
    var rest := x.unvisited - {id};
    var visited := x.(stage := if rest == {} then Done else Selected, unvisited := rest);
    if id !in t.sessions || t.sessions[id].revokedAt.Some? then visited
    else
      visited.(held := x.held + {SessionRow(id)},
               sessionWrites := x.sessionWrites[id := t.sessions[id].(revokedAt := Some(x.now))])
  }

  function StepRevoke(x: Transaction, ids: set<SessionId>): Outcome {
    if x.stage == Begun then Go(Selecting(x, ids)) else Wait
  }

  function StepBlockUser(s: State, t: TransactionId, x: Transaction): Outcome
    requires x.request.BlockUser?
  {
    var u := x.request.user;
    match x.stage
    case Begun =>
      if u !in s.tables.users || s.tables.users[u].Some? then Throw
      else Locking(s, t, x, {UserRow(u)}, x.(stage := Locked))
    case Locked => Go(x.(stage := Changed, userWrites := map[u := Some(x.now)]))
    case Changed => Go(Selecting(x, LiveSessions(s.tables, u)))
    case _ => Wait
  }

  function StepUnblockUser(s: State, t: TransactionId, x: Transaction): Outcome
    requires x.request.UnblockUser?
  {
    var u := x.request.user;
    match x.stage
    case Begun =>
      if u !in s.tables.users || s.tables.users[u].None? then Throw
      else Locking(s, t, x, {UserRow(u)}, x.(stage := Locked))
    case Locked => Go(x.(stage := Done, userWrites := map[u := None]))
    case _ => Wait
  }

  function Statement(s: State, t: TransactionId, newId: SessionId): Outcome
    requires t in s.open
  {
    var x := s.open[t];
    match x.request
    case Issue(_) => StepIssue(s, t, x, newId)
    case Authenticate(_) => StepAuthenticate(s, t, x)
    case Rotate(_, _) => StepRotate(s, t, x, newId)
    case Revoke(id) => StepRevoke(x, if id in s.tables.sessions && s.tables.sessions[id].revokedAt.None? then {id} else {})
    case RevokeAllForUser(u) => StepRevoke(x, LiveSessions(s.tables, u))
    case BlockUser(_) => StepBlockUser(s, t, x)
    case UnblockUser(_) => StepUnblockUser(s, t, x)
  }

  // ----- The machine -----

  function Committed(t: Tables, x: Transaction): Tables {
    Tables(
      t.users + x.userWrites,
      t.sessions + x.sessionWrites,
      t.issued + x.sessionWrites.Keys,
      if x.request.Authenticate? && x.stage == Done then t.log + [Authenticated(x.request.session, x.now)] else t.log)
  }

  /** A transaction reads the clock before it begins; the clock never runs backwards. */
  datatype Action =
    | Tick(milliseconds: nat)
    | AddUser(u: UserId)
    | Begin(t: TransactionId, request: Request)
    | Execute(t: TransactionId, newId: SessionId)
    | Visit(t: TransactionId, id: SessionId)
    | Commit(t: TransactionId)
    | Abort(t: TransactionId)

  function Started(request: Request, now: int): Transaction {
    Transaction(request, now, Begun, {}, {}, map[], map[])
  }

  function Step(s: State, a: Action): Option<State> {
    match a
    case Tick(milliseconds) => Some(s.(clock := s.clock + milliseconds))
    case AddUser(u) => if u in s.tables.users then None else Some(s.(tables := s.tables.(users := s.tables.users[u := None])))
    case Begin(t, request) => if t in s.open then None else Some(s.(open := s.open[t := Started(request, s.clock)]))
    case Execute(t, newId) =>
      if t !in s.open then None
      else
        (match Statement(s, t, newId)
         case Wait => None
         case Throw => Some(s.(open := s.open - {t}))
         case Go(x) => Some(s.(open := s.open[t := x])))
    case Visit(t, id) =>
      if t !in s.open || s.open[t].stage != Selected || id !in s.open[t].unvisited || !Free(s, t, SessionRow(id)) then None
      else Some(s.(open := s.open[t := AfterVisit(s.tables, s.open[t], id)]))
    case Commit(t) =>
      if t !in s.open || (s.open[t].stage != Done && s.open[t].stage != Nothing) then None
      else Some(State(Committed(s.tables, s.open[t]), s.clock, s.open - {t}))
    case Abort(t) => if t in s.open then Some(s.(open := s.open - {t})) else None
  }

  ghost predicate IsRun(states: seq<State>, actions: seq<Action>) {
    && |states| == |actions| + 1
    && forall k :: 0 <= k < |actions| ==> Step(states[k], actions[k]) == Some(states[k + 1])
  }
}
