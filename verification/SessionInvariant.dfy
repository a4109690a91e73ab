/** What holds of web sessions in every interleaving: lifetimes keep their bounds, revocation is final, and a blocked
    user has no live session. */
module SessionInvariant {
  import opened Wrappers
  import opened Sessions

  // ----- What the committed rows satisfy -----

  ghost predicate LifetimeBounds(row: Session, clock: int) {
    && row.absoluteExpiresAt == row.authenticatedAt + 30 * 24 * 60 * 60 * 1_000
    && row.idleExpiresAt == Minimum(row.lastSeenAt + 7 * 24 * 60 * 60 * 1_000, row.absoluteExpiresAt)
    && row.authenticatedAt <= row.lastSeenAt <= clock
  }

  ghost predicate TablesOk(t: Tables, clock: int) {
    && t.sessions.Keys <= t.issued
    && (forall s :: s in t.sessions ==> LifetimeBounds(t.sessions[s], clock))
    && (forall s :: s in t.sessions && Blocked(t, t.sessions[s].user) ==> t.sessions[s].revokedAt.Some?)
    && (forall s :: s in t.sessions ==> t.sessions[s].user in t.users)
  }

  // ----- What an open transaction knows -----

  function SessionsOf(t: Tables, u: UserId): set<SessionId> {
    set s | s in t.sessions && t.sessions[s].user == u
  }

  ghost predicate RevokesRows(t: Tables, x: Transaction) {
    forall s :: s in x.sessionWrites ==>
      && s in t.sessions && t.sessions[s].revokedAt == None && SessionRow(s) in x.held
      && x.sessionWrites[s] == t.sessions[s].(revokedAt := Some(x.now))
  }

  ghost predicate NewRow(t: Tables, x: Transaction, s: SessionId, user: UserId) {
    && s !in t.issued && SessionRow(s) in x.held
    && s in x.sessionWrites && x.sessionWrites[s] == NewSession(user, x.now)
  }

  ghost predicate KnowsUsable(t: Tables, x: Transaction, s: SessionId) {
    Usable(t, s, x.now) && SessionRow(s) in x.held && UserRow(t.sessions[s].user) in x.held
  }

  ghost predicate IssueKnows(t: Tables, x: Transaction)
    requires x.request.Issue?
  {
    var u := x.request.user;
    && x.userWrites == map[]
    && (x.stage in {Locked, Done} ==> UserRow(u) in x.held && u in t.users && t.users[u] == None)
    && (match x.stage
        case Begun | Locked | Nothing => x.sessionWrites == map[]
        case Done => exists s :: x.sessionWrites.Keys == {s} && NewRow(t, x, s, u)
        case _ => false)
  }

  ghost predicate AuthenticateKnows(t: Tables, x: Transaction)
    requires x.request.Authenticate?
  {
    var s := x.request.session;
    && x.userWrites == map[]
    && (x.stage in {Locked, Done} ==> KnowsUsable(t, x, s))
    && (match x.stage
        case Begun | Locked | Nothing => x.sessionWrites == map[]
        case Done =>
          x.sessionWrites ==
          if x.now - t.sessions[s].lastSeenAt < TOUCH_INTERVAL_MS then map[] else map[s := Touched(t.sessions[s], x.now)]
        case _ => false)
  }

  ghost predicate RotateKnows(t: Tables, x: Transaction)
    requires x.request.Rotate?
  {
    var s, u := x.request.session, x.request.user;
    && x.userWrites == map[]
    && (x.stage in {Locked, Changed, Done} ==> KnowsUsable(t, x, s) && t.sessions[s].user == u)
    && (match x.stage
        case Begun | Locked | Nothing => x.sessionWrites == map[]
        case Changed => x.sessionWrites == map[s := t.sessions[s].(revokedAt := Some(x.now))]
        case Done =>
          exists n :: NewRow(t, x, n, u)
            && x.sessionWrites == map[s := t.sessions[s].(revokedAt := Some(x.now))][n := NewSession(u, x.now)]
        case Selected => false)
  }

  ghost predicate RevokeKnows(t: Tables, x: Transaction) {
    && x.userWrites == map[]
    && (match x.stage
        case Begun => x.sessionWrites == map[]
        case Selected => RevokesRows(t, x)
        case Done => RevokesRows(t, x) && x.unvisited == {}
        case _ => false)
  }

  ghost predicate BlockUserKnows(t: Tables, x: Transaction)
    requires x.request.BlockUser?
  {
    var u := x.request.user;
    && (x.stage != Begun ==> UserRow(u) in x.held && u in t.users && t.users[u] == None)
    && (match x.stage
        case Begun | Locked => x.userWrites == map[] && x.sessionWrites == map[]
        case Changed => x.userWrites == map[u := Some(x.now)] && x.sessionWrites == map[]
        case Selected =>
          && x.userWrites == map[u := Some(x.now)] && RevokesRows(t, x)
          && x.sessionWrites.Keys <= LiveSessions(t, u) <= x.sessionWrites.Keys + x.unvisited <= SessionsOf(t, u)
        case Done => x.userWrites == map[u := Some(x.now)] && RevokesRows(t, x) && LiveSessions(t, u) == x.sessionWrites.Keys
        case Nothing => false)
  }

  ghost predicate UnblockUserKnows(t: Tables, x: Transaction)
    requires x.request.UnblockUser?
  {
    var u := x.request.user;
    && x.sessionWrites == map[]
    && (x.stage != Begun ==> UserRow(u) in x.held && Blocked(t, u))
    && (match x.stage
        case Begun | Locked => x.userWrites == map[]
        case Done => x.userWrites == map[u := None]
        case _ => false)
  }

  ghost predicate Knows(t: Tables, x: Transaction) {
    match x.request
    case Issue(_) => IssueKnows(t, x)
    case Authenticate(_) => AuthenticateKnows(t, x)
    case Rotate(_, _) => RotateKnows(t, x)
    case Revoke(_) => RevokeKnows(t, x)
    case RevokeAllForUser(_) => RevokeKnows(t, x)
    case BlockUser(_) => BlockUserKnows(t, x)
    case UnblockUser(_) => UnblockUserKnows(t, x)
  }

  ghost predicate Invariant(s: State) {
    && TablesOk(s.tables, s.clock)
    && (forall t :: t in s.open ==> Knows(s.tables, s.open[t]) && s.open[t].now <= s.clock)
    && (forall t, o :: t in s.open && o in s.open && t != o ==> s.open[t].held !! s.open[o].held)
  }

  // ----- A statement learns only what its locks protect -----

  ghost predicate Acquires(s: State, t: TransactionId, x: Transaction, y: Transaction) {
    && y.now == x.now && x.held <= y.held
    && (forall row :: row in y.held && row !in x.held ==> Free(s, t, row))
  }

  lemma IssueKeeps(s: State, t: TransactionId, x: Transaction, newId: SessionId, y: Transaction)
    requires x.request.Issue? && StepIssue(s, t, x, newId) == Go(y)
    requires TablesOk(s.tables, s.clock) && IssueKnows(s.tables, x)
    ensures y.request == x.request && IssueKnows(s.tables, y) && Acquires(s, t, x, y)
  {
    if x.stage == Locked {
      assert NewRow(s.tables, y, newId, x.request.user);
    }
  }

  lemma AuthenticateKeeps(s: State, t: TransactionId, x: Transaction, y: Transaction)
    requires x.request.Authenticate? && StepAuthenticate(s, t, x) == Go(y)
    requires TablesOk(s.tables, s.clock) && AuthenticateKnows(s.tables, x)
    ensures y.request == x.request && AuthenticateKnows(s.tables, y) && Acquires(s, t, x, y)
  {
  }

  lemma RotateKeeps(s: State, t: TransactionId, x: Transaction, newId: SessionId, y: Transaction)
    requires x.request.Rotate? && StepRotate(s, t, x, newId) == Go(y)
    requires TablesOk(s.tables, s.clock) && RotateKnows(s.tables, x)
    ensures y.request == x.request && RotateKnows(s.tables, y) && Acquires(s, t, x, y)
  {
    if x.stage == Changed {
      assert NewRow(s.tables, y, newId, x.request.user);
    }
  }

  lemma BlockUserKeeps(s: State, t: TransactionId, x: Transaction, y: Transaction)
    requires x.request.BlockUser? && StepBlockUser(s, t, x) == Go(y)
    requires TablesOk(s.tables, s.clock) && BlockUserKnows(s.tables, x)
    ensures y.request == x.request && BlockUserKnows(s.tables, y) && Acquires(s, t, x, y)
  {
  }

  lemma UnblockUserKeeps(s: State, t: TransactionId, x: Transaction, y: Transaction)
    requires x.request.UnblockUser? && StepUnblockUser(s, t, x) == Go(y)
    requires TablesOk(s.tables, s.clock) && UnblockUserKnows(s.tables, x)
    ensures y.request == x.request && UnblockUserKnows(s.tables, y) && Acquires(s, t, x, y)
  {
  }

  lemma RevokeKeeps(s: State, t: TransactionId, x: Transaction, ids: set<SessionId>, y: Transaction)
    requires StepRevoke(x, ids) == Go(y) && RevokeKnows(s.tables, x)
    ensures y.request == x.request && RevokeKnows(s.tables, y) && Acquires(s, t, x, y)
  {
  }

  lemma StatementKeeps(s: State, t: TransactionId, newId: SessionId, y: Transaction)
    requires t in s.open && TablesOk(s.tables, s.clock) && Knows(s.tables, s.open[t]) && Statement(s, t, newId) == Go(y)
    ensures Knows(s.tables, y) && Acquires(s, t, s.open[t], y)
  {
    var x := s.open[t];
    match x.request
    case Issue(_) => IssueKeeps(s, t, x, newId, y);
    case Authenticate(_) => AuthenticateKeeps(s, t, x, y);
    case Rotate(_, _) => RotateKeeps(s, t, x, newId, y);
    case Revoke(id) =>
      RevokeKeeps(s, t, x, if id in s.tables.sessions && s.tables.sessions[id].revokedAt.None? then {id} else {}, y);
    case RevokeAllForUser(u) => RevokeKeeps(s, t, x, LiveSessions(s.tables, u), y);
    case BlockUser(_) => BlockUserKeeps(s, t, x, y);
    case UnblockUser(_) => UnblockUserKeeps(s, t, x, y);
  }

  lemma BlockingVisitKeeps(t: Tables, x: Transaction, id: SessionId)
    requires x.request.BlockUser? && x.stage == Selected && id in x.unvisited && Knows(t, x)
    ensures Knows(t, AfterVisit(t, x, id))
  {
    var y, u := AfterVisit(t, x, id), x.request.user;
    assert x.unvisited == y.unvisited + {id};
    assert y.sessionWrites.Keys <= LiveSessions(t, u) <= y.sessionWrites.Keys + y.unvisited <= SessionsOf(t, u);
    if y.unvisited == {} {
      assert y.sessionWrites.Keys + y.unvisited == y.sessionWrites.Keys;
    }
  }

  lemma VisitKeeps(s: State, t: TransactionId, x: Transaction, id: SessionId)
    requires x.stage == Selected && id in x.unvisited && Knows(s.tables, x) && Free(s, t, SessionRow(id))
    ensures Knows(s.tables, AfterVisit(s.tables, x, id)) && Acquires(s, t, x, AfterVisit(s.tables, x, id))
  {
    if x.request.BlockUser? {
      BlockingVisitKeeps(s.tables, x, id);
    }
  }

  // ----- What a commit may change under the eyes of others -----

  ghost predicate SameUser(t: Tables, t': Tables, u: UserId) {
    (u in t.users <==> u in t'.users) && (u in t.users ==> t.users[u] == t'.users[u])
  }

  ghost predicate SameSession(t: Tables, t': Tables, s: SessionId) {
    && (s in t.sessions <==> s in t'.sessions)
    && (s in t.sessions ==> t.sessions[s] == t'.sessions[s])
    && (s in t.issued <==> s in t'.issued)
  }

  ghost predicate Guarantee(t: Tables, t': Tables, held: set<Row>) {
    && (forall u: UserId :: SameUser(t, t', u) || UserRow(u) in held)
    && (forall s: SessionId :: SameSession(t, t', s) || SessionRow(s) in held)
    && (forall u: UserId :: SessionsOf(t, u) <= SessionsOf(t', u))
    && (forall u: UserId :: LiveSessions(t', u) <= LiveSessions(t, u) || UserRow(u) in held)
  }

  lemma OthersStillKnow(t: Tables, t': Tables, held: set<Row>, y: Transaction)
    requires Guarantee(t, t', held) && held !! y.held && Knows(t, y)
    ensures Knows(t', y)
  {
    match y.request
    case Issue(u) =>
      assert SameUser(t, t', u) || UserRow(u) in held;
      if y.stage == Done {
        var s :| y.sessionWrites.Keys == {s} && NewRow(t, y, s, u);
        assert NewRow(t', y, s, u);
      }
    case Authenticate(s) =>
      assert SameSession(t, t', s) || SessionRow(s) in held;
    case Rotate(s, u) =>
      assert SameSession(t, t', s) || SessionRow(s) in held;
      if y.stage == Done {
        var n :| NewRow(t, y, n, u)
          && y.sessionWrites == map[s := t.sessions[s].(revokedAt := Some(y.now))][n := NewSession(u, y.now)];
        assert NewRow(t', y, n, u);
      }
    case BlockUser(u) =>
      assert SameUser(t, t', u) || UserRow(u) in held;
    case UnblockUser(u) =>
      assert SameUser(t, t', u) || UserRow(u) in held;
    case _ =>
  }

  lemma IssueGuarantees(t: Tables, x: Transaction)
    requires x.request.Issue? && Knows(t, x) && x.stage in {Done, Nothing}
    requires t.sessions.Keys <= t.issued
    ensures Guarantee(t, Committed(t, x), x.held)
  {
  }

  lemma AuthenticateGuarantees(t: Tables, x: Transaction)
    requires x.request.Authenticate? && Knows(t, x) && x.stage in {Done, Nothing}
    requires t.sessions.Keys <= t.issued
    ensures Guarantee(t, Committed(t, x), x.held)
  {
  }

  lemma RotateGuarantees(t: Tables, x: Transaction)
    requires x.request.Rotate? && Knows(t, x) && x.stage in {Done, Nothing}
    requires t.sessions.Keys <= t.issued
    ensures Guarantee(t, Committed(t, x), x.held)
  {
  }

  lemma RevocationGuarantees(t: Tables, x: Transaction)
    requires !x.request.Issue? && !x.request.Authenticate? && !x.request.Rotate?
    requires Knows(t, x) && x.stage in {Done, Nothing}
    requires t.sessions.Keys <= t.issued
    ensures Guarantee(t, Committed(t, x), x.held)
  {
  }

  lemma CommitGuarantees(t: Tables, x: Transaction)
    requires Knows(t, x) && x.stage in {Done, Nothing}
    requires t.sessions.Keys <= t.issued
    ensures Guarantee(t, Committed(t, x), x.held)
  {
    match x.request
    case Issue(_) => IssueGuarantees(t, x);
    case Authenticate(_) => AuthenticateGuarantees(t, x);
    case Rotate(_, _) => RotateGuarantees(t, x);
    case _ => RevocationGuarantees(t, x);
  }

  lemma NewSessionIsOk(user: UserId, now: int, clock: int)
    requires now <= clock
    ensures LifetimeBounds(NewSession(user, now), clock)
  {
  }

  lemma TouchedIsOk(row: Session, now: int, clock: int)
    requires LifetimeBounds(row, clock) && ActiveAt(row, now) && now <= clock
    ensures LifetimeBounds(Touched(row, now), clock)
  {
  }

  lemma IssueCommits(t: Tables, clock: int, x: Transaction)
    requires x.request.Issue? && TablesOk(t, clock) && Knows(t, x) && x.stage in {Done, Nothing} && x.now <= clock
    ensures TablesOk(Committed(t, x), clock)
  {
    NewSessionIsOk(x.request.user, x.now, clock);
  }

  lemma AuthenticateCommits(t: Tables, clock: int, x: Transaction)
    requires x.request.Authenticate? && TablesOk(t, clock) && Knows(t, x) && x.stage in {Done, Nothing} && x.now <= clock
    ensures TablesOk(Committed(t, x), clock)
  {
    if x.stage == Done {
      TouchedIsOk(t.sessions[x.request.session], x.now, clock);
    }
  }

  lemma RotateCommits(t: Tables, clock: int, x: Transaction)
    requires x.request.Rotate? && TablesOk(t, clock) && Knows(t, x) && x.stage in {Done, Nothing} && x.now <= clock
    ensures TablesOk(Committed(t, x), clock)
  {
    if x.stage == Done {
      var s, u := x.request.session, x.request.user;
      var n :| NewRow(t, x, n, u)
        && x.sessionWrites == map[s := t.sessions[s].(revokedAt := Some(x.now))][n := NewSession(u, x.now)];
      RotatedIsOk(t, clock, x, s, n, u);
    }
  }

  lemma RotatedIsOk(t: Tables, clock: int, x: Transaction, s: SessionId, n: SessionId, u: UserId)
    requires TablesOk(t, clock) && x.now <= clock && u in t.users && t.users[u] == None && n !in t.issued && s in t.sessions
    requires x.sessionWrites == map[s := t.sessions[s].(revokedAt := Some(x.now))][n := NewSession(u, x.now)]
    requires x.userWrites == map[]
    ensures TablesOk(Committed(t, x), clock)
  {
    var t' := Committed(t, x);
    NewSessionIsOk(u, x.now, clock);
    forall i | i in t'.sessions && i != n
      ensures i in t.sessions && t'.sessions[i] in {t.sessions[i], t.sessions[i].(revokedAt := Some(x.now))}
    {
    }
  }

  lemma RevocationCommits(t: Tables, clock: int, x: Transaction)
    requires TablesOk(t, clock) && RevokesRows(t, x) && x.userWrites == map[] && !x.request.Authenticate?
    ensures TablesOk(Committed(t, x), clock)
  {
  }

  lemma BlockUserCommits(t: Tables, clock: int, x: Transaction)
    requires x.request.BlockUser? && TablesOk(t, clock) && Knows(t, x) && x.stage == Done
    ensures TablesOk(Committed(t, x), clock)
  {
    var t' := Committed(t, x);
    forall s | s in t'.sessions && Blocked(t', t'.sessions[s].user)
      ensures t'.sessions[s].revokedAt.Some?
    {
      assert t'.sessions[s].revokedAt.None? ==> s in LiveSessions(t, t.sessions[s].user);
    }
  }

  lemma UnblockUserCommits(t: Tables, clock: int, x: Transaction)
    requires x.request.UnblockUser? && TablesOk(t, clock) && Knows(t, x) && x.stage == Done
    ensures TablesOk(Committed(t, x), clock)
  {
  }

  lemma CommitKeepsTables(t: Tables, clock: int, x: Transaction)
    requires TablesOk(t, clock) && Knows(t, x) && x.stage in {Done, Nothing} && x.now <= clock
    ensures TablesOk(Committed(t, x), clock)
  {
    match x.request
    case Issue(_) => IssueCommits(t, clock, x);
    case Authenticate(_) => AuthenticateCommits(t, clock, x);
    case Rotate(_, _) => RotateCommits(t, clock, x);
    case Revoke(_) => RevocationCommits(t, clock, x);
    case RevokeAllForUser(_) => RevocationCommits(t, clock, x);
    case BlockUser(_) => BlockUserCommits(t, clock, x);
    case UnblockUser(_) => UnblockUserCommits(t, clock, x);
  }

  /** Every action keeps the invariant. */
  lemma StepKeepsInvariant(s: State, a: Action, s': State)
    requires Invariant(s) && Step(s, a) == Some(s')
    ensures Invariant(s')
  {
    match a
    case Tick(_) =>
    case AddUser(u) => NewUserKeepsInvariant(s, u, s');
    case Begin(t, request) => BeginKeepsInvariant(s, t, request, s');
    case Execute(t, newId) => ExecuteKeepsInvariant(s, t, newId, s');
    case Visit(t, id) => VisitKeepsInvariant(s, t, id, s');
    case Commit(t) => CommitKeepsInvariant(s, t, s');
    case Abort(_) =>
  }

  lemma BeginKeepsInvariant(s: State, t: TransactionId, request: Request, s': State)
    requires Invariant(s) && Step(s, Begin(t, request)) == Some(s')
    ensures Invariant(s')
  {
    assert forall o :: o in s'.open && o != t ==> s'.open[o] == s.open[o];
  }

  lemma CommitKeepsInvariant(s: State, t: TransactionId, s': State)
    requires Invariant(s) && Step(s, Commit(t)) == Some(s')
    ensures Invariant(s')
  {
    CommitKeepsTables(s.tables, s.clock, s.open[t]);
    CommitGuarantees(s.tables, s.open[t]);
    forall o | o in s'.open
      ensures Knows(s'.tables, s'.open[o])
    {
      OthersStillKnow(s.tables, s'.tables, s.open[t].held, s.open[o]);
    }
  }

  lemma NewUserKeepsInvariant(s: State, u: UserId, s': State)
    requires Invariant(s) && Step(s, AddUser(u)) == Some(s')
    ensures Invariant(s')
  {
    forall o | o in s'.open
      ensures Knows(s'.tables, s'.open[o])
    {
      NewUserIsUnknown(s.tables, u, s.open[o]);
    }
  }

  lemma NewUserIsUnknown(t: Tables, u: UserId, y: Transaction)
    requires u !in t.users && Knows(t, y)
    ensures Knows(t.(users := t.users[u := None]), y)
  {
    var t' := t.(users := t.users[u := None]);
    match y.request
    case Issue(v) =>
      if y.stage == Done {
        var s :| y.sessionWrites.Keys == {s} && NewRow(t, y, s, v);
        assert NewRow(t', y, s, v);
      }
    case Rotate(s, v) =>
      if y.stage == Done {
        var n :| NewRow(t, y, n, v)
          && y.sessionWrites == map[s := t.sessions[s].(revokedAt := Some(y.now))][n := NewSession(v, y.now)];
        assert NewRow(t', y, n, v);
      }
    case BlockUser(v) => assert LiveSessions(t', v) == LiveSessions(t, v);
    case _ =>
  }

  lemma ExecuteKeepsInvariant(s: State, t: TransactionId, newId: SessionId, s': State)
    requires Invariant(s) && Step(s, Execute(t, newId)) == Some(s')
    ensures Invariant(s')
  {
    match Statement(s, t, newId)
    case Throw =>
    case Go(y) =>
      StatementKeeps(s, t, newId, y);
      forall o | o in s.open && o != t
        ensures y.held !! s.open[o].held
      {
        assert s.open[t].held !! s.open[o].held;
      }
  }

  lemma VisitKeepsInvariant(s: State, t: TransactionId, id: SessionId, s': State)
    requires Invariant(s) && Step(s, Visit(t, id)) == Some(s')
    ensures Invariant(s')
  {
    VisitKeeps(s, t, s.open[t], id);
    forall o | o in s.open && o != t
      ensures s'.open[t].held !! s.open[o].held
    {
      assert s.open[t].held !! s.open[o].held;
    }
  }

  ghost predicate Quiet(s: State) {
    s.open == map[] && TablesOk(s.tables, s.clock)
  }

  lemma {:induction false} InvariantHolds(states: seq<State>, actions: seq<Action>, k: nat)
    requires IsRun(states, actions) && k < |states| && Quiet(states[0])
    ensures Invariant(states[k])
    decreases k
  {
    if k > 0 {
      InvariantHolds(states, actions, k - 1);
      StepKeepsInvariant(states[k - 1], actions[k - 1], states[k]);
    }
  }

  // ----- How one session evolves -----

  /** Revocation is final, and an unrevoked session only moves its idle expiry forward. */
  predicate Evolves(row: Session, later: Session) {
    && later.user == row.user
    && later.authenticatedAt == row.authenticatedAt
    && later.absoluteExpiresAt == row.absoluteExpiresAt
    && row.lastSeenAt <= later.lastSeenAt
    && row.idleExpiresAt <= later.idleExpiresAt
    && (row.revokedAt.Some? ==> later == row)
  }

  function Successes(log: seq<Event>, s: SessionId): nat {
    if log == [] then 0
    else Successes(log[..|log| - 1], s) + if log[|log| - 1].session == s then 1 else 0
  }

  lemma SuccessesAppend(log: seq<Event>, e: Event, s: SessionId)
    ensures Successes(log + [e], s) == Successes(log, s) + if e.session == s then 1 else 0
  {
    assert (log + [e])[..|log|] == log;
  }

  /** The commit of a successful authentication of session `s`. */
  predicate Authenticates(s: State, a: Action, id: SessionId) {
    a.Commit? && a.t in s.open && s.open[a.t].request == Authenticate(id) && s.open[a.t].stage == Done
  }

  /** A session evolves, and only a session that is usable at the time the request read is ever authenticated. */
  lemma StepOnSession(s: State, a: Action, s': State, id: SessionId)
    requires Invariant(s) && Step(s, a) == Some(s') && id in s.tables.sessions
    ensures id in s'.tables.sessions && Evolves(s.tables.sessions[id], s'.tables.sessions[id])
    ensures Successes(s'.tables.log, id) == Successes(s.tables.log, id) + if Authenticates(s, a, id) then 1 else 0
    ensures Authenticates(s, a, id) ==> Usable(s.tables, id, s.open[a.t].now)
  {
    if a.Commit? {
      var x := s.open[a.t];
      assert Knows(s.tables, x);
      if x.request.Authenticate? && x.stage == Done {
        SuccessesAppend(s.tables.log, Authenticated(x.request.session, x.now), id);
      }
      CommitOnSession(s.tables, s.clock, x, id);
    }
  }

  lemma CommitOnSession(t: Tables, clock: int, x: Transaction, id: SessionId)
    requires TablesOk(t, clock) && Knows(t, x) && x.stage in {Done, Nothing} && id in t.sessions
    ensures Evolves(t.sessions[id], Committed(t, x).sessions[id])
  {
  }

  lemma {:induction false} RunOnSession(states: seq<State>, actions: seq<Action>, j: nat, k: nat, id: SessionId)
    requires IsRun(states, actions) && Quiet(states[0]) && j <= k < |states| && id in states[j].tables.sessions
    ensures id in states[k].tables.sessions && Evolves(states[j].tables.sessions[id], states[k].tables.sessions[id])
    decreases k
  {
    if j < k {
      RunOnSession(states, actions, j, k - 1, id);
      InvariantHolds(states, actions, k - 1);
      StepOnSession(states[k - 1], actions[k - 1], states[k], id);
    }
  }

  // ----- Blocking is final for live sessions -----

  /** A revoked session stays revoked and is never authenticated again. */
  lemma {:induction false} RevokedIsNeverAuthenticated(
    states: seq<State>, actions: seq<Action>, j: nat, k: nat, id: SessionId)
    requires IsRun(states, actions) && Quiet(states[0]) && j <= k < |states|
    requires id in states[j].tables.sessions && states[j].tables.sessions[id].revokedAt.Some?
    ensures id in states[k].tables.sessions && states[k].tables.sessions[id] == states[j].tables.sessions[id]
    ensures Successes(states[k].tables.log, id) == Successes(states[j].tables.log, id)
    decreases k
  {
    if j < k {
      RevokedIsNeverAuthenticated(states, actions, j, k - 1, id);
      InvariantHolds(states, actions, k - 1);
      StepOnSession(states[k - 1], actions[k - 1], states[k], id);
    }
  }

  /** No committed state shows a blocked user with a live session. */
  lemma BlockedUsersHaveNoLiveSessions(states: seq<State>, actions: seq<Action>, k: nat, u: UserId)
    requires IsRun(states, actions) && Quiet(states[0]) && k < |states| && Blocked(states[k].tables, u)
    ensures LiveSessions(states[k].tables, u) == {}
  {
    InvariantHolds(states, actions, k);
  }

  /** A session that exists while its user is blocked is never authenticated again, even after an unblocking. */
  lemma BlockingIsFinal(states: seq<State>, actions: seq<Action>, j: nat, k: nat, id: SessionId)
    requires IsRun(states, actions) && Quiet(states[0]) && j <= k < |states|
    requires id in states[j].tables.sessions && Blocked(states[j].tables, states[j].tables.sessions[id].user)
    ensures id in states[k].tables.sessions && states[k].tables.sessions[id].revokedAt.Some?
    ensures Successes(states[k].tables.log, id) == Successes(states[j].tables.log, id)
  {
    InvariantHolds(states, actions, j);
    RevokedIsNeverAuthenticated(states, actions, j, k, id);
  }

  // ----- Lifetimes -----

  /** Every session in every reachable state keeps its absolute and idle expiries. */
  lemma LifetimesAreBounded(states: seq<State>, actions: seq<Action>, k: nat, id: SessionId)
    requires IsRun(states, actions) && Quiet(states[0]) && k < |states| && id in states[k].tables.sessions
    ensures LifetimeBounds(states[k].tables.sessions[id], states[k].clock)
  {
    InvariantHolds(states, actions, k);
  }

  /** After a success at time `at`, the session stays active up to seven days less five minutes later, below its
      absolute expiry, for every request that did not read the clock before the latest touch. */
  lemma SuccessKeepsSessionActive(states: seq<State>, actions: seq<Action>, j: nat, k: nat, id: SessionId, later: int)
    requires IsRun(states, actions) && Quiet(states[0]) && j < k < |states|
    requires Authenticates(states[j], actions[j], id)
    requires
      var at := states[j].open[actions[j].t].now;
      later <= at + 7 * 24 * 60 * 60 * 1_000 - 5 * 60 * 1_000
    ensures id in states[k].tables.sessions
    ensures
      var row := states[k].tables.sessions[id];
      row.lastSeenAt <= later < row.absoluteExpiresAt ==> ActiveAt(row, later)
  {
    InvariantHolds(states, actions, j);
    InvariantHolds(states, actions, k);
    SuccessLeavesRecentTouch(states[j], actions[j], states[j + 1], id);
    RunOnSession(states, actions, j + 1, k, id);
  }

  lemma SuccessLeavesRecentTouch(s: State, a: Action, s': State, id: SessionId)
    requires Invariant(s) && Step(s, a) == Some(s') && Authenticates(s, a, id)
    ensures id in s'.tables.sessions
    ensures s.open[a.t].now - s'.tables.sessions[id].lastSeenAt < 5 * 60 * 1_000
  {
    assert Knows(s.tables, s.open[a.t]);
  }

  /** A request that begins now is never too early for the latest touch. */
  lemma NewRequestsAreNotTooEarly(states: seq<State>, actions: seq<Action>, j: nat, k: nat, id: SessionId)
    requires IsRun(states, actions) && Quiet(states[0]) && j < k < |states|
    requires Authenticates(states[j], actions[j], id)
    requires
      var at := states[j].open[actions[j].t].now;
      states[k].clock <= at + 7 * 24 * 60 * 60 * 1_000 - 5 * 60 * 1_000
    ensures id in states[k].tables.sessions
    ensures
      var t := states[k].tables;
      Usable(t, id, states[k].clock) <==>
      (t.sessions[id].revokedAt == None && !Blocked(t, t.sessions[id].user) && states[k].clock < t.sessions[id].absoluteExpiresAt)
  {
    SuccessKeepsSessionActive(states, actions, j, k, id, states[k].clock);
    LifetimesAreBounded(states, actions, k, id);
    InvariantHolds(states, actions, k);
  }
}
