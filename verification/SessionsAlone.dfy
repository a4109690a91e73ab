/** What each session transaction does when nothing interferes: run to the end and committed, its statements have
    exactly the promised effect, or throw exactly when the service promises an error. */
module SessionsAlone {
  import opened Wrappers
  import opened SessionInvariant
  import opened Sessions

  /** The statements of a lone transaction, one after the other, and then its commit. A revocation comes to its rows in
      an arbitrary order. */
  ghost function RunAlone(t: Tables, x: Transaction, newId: SessionId, fuel: nat): Option<Tables>
    decreases fuel, |x.unvisited|
  {
    if x.stage == Done || x.stage == Nothing then Some(Committed(t, x))
    else if x.stage == Selected then
      if x.unvisited == {} then None
      else
        var id :| id in x.unvisited;
        RunAlone(t, AfterVisit(t, x, id), newId, fuel)
    else if fuel == 0 then None
    else
      match Statement(State(t, x.now, map[0 := x]), 0, newId)
      case Wait => None
      case Throw => None
      case Go(next) => RunAlone(t, next, newId, fuel - 1)
  }

  /** The longest transaction executes three statements. */
  ghost function Alone(t: Tables, request: Request, now: int, newId: SessionId): Option<Tables> {
    RunAlone(t, Started(request, now), newId, 3)
  }

  // ----- The promised effects, in one step -----

  const DAY := 24 * 60 * 60 * 1_000
  const MINUTE := 60 * 1_000

  /** A new session is idle after a week and over after thirty days. */
  function WithNewSession(t: Tables, s: SessionId, user: UserId, now: int): Tables {
    t.(sessions := t.sessions[s := Session(user, now, now, now + 7 * DAY, now + 30 * DAY, None)], issued := t.issued + {s})
  }

  /** Revokes the live sessions among `ids`, and leaves every other row alone. */
  function WithRevoked(t: Tables, ids: set<SessionId>, now: int): Tables {
    t.(sessions :=
         map s | s in t.sessions :: if s in ids && t.sessions[s].revokedAt.None? then t.sessions[s].(revokedAt := Some(now))
                                    else t.sessions[s])
  }

  /** The session is neither revoked nor over nor from the future, and its user is not blocked. */
  predicate IsGood(t: Tables, s: SessionId, now: int) {
    && s in t.sessions && t.sessions[s].user in t.users
    && t.sessions[s].revokedAt.None? && t.users[t.sessions[s].user].None?
    && t.sessions[s].authenticatedAt <= now && t.sessions[s].lastSeenAt <= now
    && now < t.sessions[s].idleExpiresAt && now < t.sessions[s].absoluteExpiresAt
  }

  function AuthenticateEffect(t: Tables, s: SessionId, now: int): Tables {
    if !IsGood(t, s, now) then t
    else
      var row := t.sessions[s];
      var idle := if now + 7 * DAY < row.absoluteExpiresAt then now + 7 * DAY else row.absoluteExpiresAt;
      var touched := row.(lastSeenAt := now, idleExpiresAt := idle);
      t.(log := t.log + [Authenticated(s, now)],
         sessions := if row.lastSeenAt + 5 * MINUTE <= now then t.sessions[s := touched] else t.sessions)
  }

  function Effect(t: Tables, request: Request, now: int, newId: SessionId): Option<Tables> {
    match request
    case Issue(u) => Some(if u in t.users && t.users[u].None? then WithNewSession(t, newId, u, now) else t)
    case Authenticate(s) => Some(AuthenticateEffect(t, s, now))
    case Rotate(s, u) =>
      Some(if IsGood(t, s, now) && t.sessions[s].user == u then WithNewSession(WithRevoked(t, {s}, now), newId, u, now) else t)
    case Revoke(s) => Some(WithRevoked(t, {s}, now))
    case RevokeAllForUser(u) => Some(WithRevoked(t, SessionsOf(t, u), now))
    case BlockUser(u) =>
      if u !in t.users || Blocked(t, u) then None
      else Some(WithRevoked(t, SessionsOf(t, u), now).(users := t.users[u := Some(now)]))
    case UnblockUser(u) => if !Blocked(t, u) then None else Some(t.(users := t.users[u := None]))
  }

  // ----- Single statements -----

  function Next(t: Tables, x: Transaction, newId: SessionId): Outcome {
    Statement(State(t, x.now, map[0 := x]), 0, newId)
  }

  lemma Proceeds(t: Tables, x: Transaction, newId: SessionId, fuel: nat)
    requires x.stage != Done && x.stage != Nothing && x.stage != Selected && fuel > 0
    ensures RunAlone(t, x, newId, fuel) ==
            if Next(t, x, newId).Go? then RunAlone(t, Next(t, x, newId).next, newId, fuel - 1) else None
    ensures forall row :: Free(State(t, x.now, map[0 := x]), 0, row)
  {
  }

  lemma CommitsNothing(t: Tables, x: Transaction, newId: SessionId, fuel: nat)
    requires x.stage == Nothing && x.userWrites == map[] && x.sessionWrites == map[]
    ensures RunAlone(t, x, newId, fuel) == Some(t)
  {
    assert t.users + x.userWrites == t.users && t.sessions + x.sessionWrites == t.sessions;
    assert t.issued + x.sessionWrites.Keys == t.issued;
  }

  function LiveAmong(t: Tables, among: set<SessionId>): set<SessionId> {
    set s | s in t.sessions && s in among && t.sessions[s].revokedAt.None?
  }

  /** The revocation has written some of the live rows, and has yet to come to the others. */
  ghost predicate RevokesAmong(t: Tables, x: Transaction, among: set<SessionId>) {
    && x.stage == (if x.unvisited == {} then Done else Selected)
    && x.sessionWrites.Keys + x.unvisited == LiveAmong(t, among)
    && forall s :: s in x.sessionWrites ==> s in t.sessions && x.sessionWrites[s] == t.sessions[s].(revokedAt := Some(x.now))
  }

  lemma VisitGoesOn(t: Tables, x: Transaction, among: set<SessionId>, id: SessionId)
    requires RevokesAmong(t, x, among) && id in x.unvisited
    ensures RevokesAmong(t, AfterVisit(t, x, id), among)
  {
    var y := AfterVisit(t, x, id);
    assert id in LiveAmong(t, among);
    assert y.sessionWrites.Keys + y.unvisited == x.sessionWrites.Keys + x.unvisited;
  }

  lemma AllVisited(t: Tables, x: Transaction, among: set<SessionId>)
    requires t.sessions.Keys <= t.issued && !x.request.Authenticate? && RevokesAmong(t, x, among) && x.unvisited == {}
    ensures Committed(t, x) == WithRevoked(t, among, x.now).(users := t.users + x.userWrites)
  {
    assert x.sessionWrites.Keys == LiveAmong(t, among);
    assert Committed(t, x).sessions == WithRevoked(t, among, x.now).sessions;
    assert t.issued + x.sessionWrites.Keys == t.issued;
  }

  /** Whatever their order, the visits of a lone revocation write exactly the live rows among those selected. */
  lemma {:induction false} VisitsAlone(t: Tables, x: Transaction, among: set<SessionId>, newId: SessionId, fuel: nat)
    requires t.sessions.Keys <= t.issued && !x.request.Authenticate? && RevokesAmong(t, x, among)
    ensures RunAlone(t, x, newId, fuel) == Some(WithRevoked(t, among, x.now).(users := t.users + x.userWrites))
    decreases |x.unvisited|
  {
    if x.unvisited == {} {
      AllVisited(t, x, among);
    } else {
      var id :| id in x.unvisited && RunAlone(t, x, newId, fuel) == RunAlone(t, AfterVisit(t, x, id), newId, fuel);
      VisitGoesOn(t, x, among, id);
      VisitsAlone(t, AfterVisit(t, x, id), among, newId, fuel);
    }
  }

  // ----- Each transaction -----

  lemma IssueAlone(t: Tables, u: UserId, now: int, newId: SessionId)
    requires newId !in t.issued
    ensures Alone(t, Issue(u), now, newId) == Effect(t, Issue(u), now, newId)
  {
    var x := Started(Issue(u), now);
    Proceeds(t, x, newId, 3);
    var y := Next(t, x, newId).next;
    if y.stage == Nothing {
      CommitsNothing(t, y, newId, 2);
    } else {
      Proceeds(t, y, newId, 2);
      var z := Next(t, y, newId).next;
      assert t.sessions + z.sessionWrites == t.sessions[newId := z.sessionWrites[newId]];
      assert t.issued + z.sessionWrites.Keys == t.issued + {newId};
      assert t.users + map[] == t.users;
    }
  }

  lemma AuthenticateAlone(t: Tables, s: SessionId, now: int, newId: SessionId)
    requires t.sessions.Keys <= t.issued
    ensures Alone(t, Authenticate(s), now, newId) == Effect(t, Authenticate(s), now, newId)
  {
    var x := Started(Authenticate(s), now);
    Proceeds(t, x, newId, 3);
    var y := Next(t, x, newId).next;
    if y.stage == Nothing {
      CommitsNothing(t, y, newId, 2);
    } else {
      Proceeds(t, y, newId, 2);
      var z := Next(t, y, newId).next;
      var row := t.sessions[s];
      assert t.sessions + z.sessionWrites == AuthenticateEffect(t, s, now).sessions;
      assert t.issued + z.sessionWrites.Keys == t.issued && t.users + map[] == t.users;
    }
  }

  lemma RotateAlone(t: Tables, s: SessionId, u: UserId, now: int, newId: SessionId)
    requires newId !in t.issued && t.sessions.Keys <= t.issued
    ensures Alone(t, Rotate(s, u), now, newId) == Effect(t, Rotate(s, u), now, newId)
  {
    var x := Started(Rotate(s, u), now);
    Proceeds(t, x, newId, 3);
    var y := Next(t, x, newId).next;
    if y.stage == Nothing {
      CommitsNothing(t, y, newId, 2);
    } else {
      Proceeds(t, y, newId, 2);
      var z := Next(t, y, newId).next;
      RotateFromRevocation(t, z, newId);
    }
  }

  lemma RotateFromRevocation(t: Tables, x: Transaction, newId: SessionId)
    requires x.request.Rotate? && x.stage == Changed && x.userWrites == map[] && newId !in t.issued
    requires x.request.session in t.sessions && t.sessions[x.request.session].revokedAt.None? && t.sessions.Keys <= t.issued
    requires x.sessionWrites == map[x.request.session := t.sessions[x.request.session].(revokedAt := Some(x.now))]
    ensures
      RunAlone(t, x, newId, 1) ==
      Some(WithNewSession(WithRevoked(t, {x.request.session}, x.now), newId, x.request.user, x.now))
  {
    Proceeds(t, x, newId, 1);
    var y := Next(t, x, newId).next;
    RotationWrites(t, x.request.session, x.request.user, x.now, newId);
    assert y.sessionWrites.Keys == {x.request.session, newId};
    assert t.issued + y.sessionWrites.Keys == t.issued + {newId} && t.users + map[] == t.users;
  }

  lemma RotationWrites(t: Tables, s: SessionId, u: UserId, now: int, newId: SessionId)
    requires s in t.sessions && t.sessions[s].revokedAt.None? && newId !in t.sessions
    ensures
      t.sessions + map[s := t.sessions[s].(revokedAt := Some(now))][newId := NewSession(u, now)] ==
      WithNewSession(WithRevoked(t, {s}, now), newId, u, now).sessions
  {
  }

  lemma RevocationAlone(t: Tables, request: Request, among: set<SessionId>, now: int, newId: SessionId)
    requires t.sessions.Keys <= t.issued
    requires (request.Revoke? && among == {request.session}) || (request.RevokeAllForUser? && among == SessionsOf(t, request.user))
    ensures Alone(t, request, now, newId) == Some(WithRevoked(t, among, now))
  {
    var x := Started(request, now);
    Proceeds(t, x, newId, 3);
    var y := Next(t, x, newId).next;
    assert y.unvisited == LiveAmong(t, among);
    VisitsAlone(t, y, among, newId, 2);
    assert t.users + map[] == t.users;
  }

  lemma BlockUserAlone(t: Tables, u: UserId, now: int, newId: SessionId)
    requires t.sessions.Keys <= t.issued
    ensures Alone(t, BlockUser(u), now, newId) == Effect(t, BlockUser(u), now, newId)
  {
    var x := Started(BlockUser(u), now);
    Proceeds(t, x, newId, 3);
    if u in t.users && !Blocked(t, u) {
      var y := Next(t, x, newId).next;
      Proceeds(t, y, newId, 2);
      var z := Next(t, y, newId).next;
      Proceeds(t, z, newId, 1);
      var w := Next(t, z, newId).next;
      assert w.unvisited == LiveAmong(t, SessionsOf(t, u));
      VisitsAlone(t, w, SessionsOf(t, u), newId, 0);
      assert t.users + w.userWrites == t.users[u := Some(now)];
    }
  }

  lemma UnblockUserAlone(t: Tables, u: UserId, now: int, newId: SessionId)
    ensures Alone(t, UnblockUser(u), now, newId) == Effect(t, UnblockUser(u), now, newId)
  {
    var x := Started(UnblockUser(u), now);
    Proceeds(t, x, newId, 3);
    if Blocked(t, u) {
      var y := Next(t, x, newId).next;
      Proceeds(t, y, newId, 2);
      var z := Next(t, y, newId).next;
      assert t.users + z.userWrites == t.users[u := None];
      assert t.sessions + z.sessionWrites == t.sessions && t.issued + z.sessionWrites.Keys == t.issued;
    }
  }

  /** Every lone session transaction has its promised effect, and throws exactly when an error is promised. */
  lemma AloneIsEffect(t: Tables, request: Request, now: int, newId: SessionId)
    requires newId !in t.issued && t.sessions.Keys <= t.issued
    ensures Alone(t, request, now, newId) == Effect(t, request, now, newId)
  {
    match request
    case Issue(u) => IssueAlone(t, u, now, newId);
    case Authenticate(s) => AuthenticateAlone(t, s, now, newId);
    case Rotate(s, u) => RotateAlone(t, s, u, now, newId);
    case Revoke(s) => RevocationAlone(t, request, {s}, now, newId);
    case RevokeAllForUser(u) => RevocationAlone(t, request, SessionsOf(t, u), now, newId);
    case BlockUser(u) => BlockUserAlone(t, u, now, newId);
    case UnblockUser(u) => UnblockUserAlone(t, u, now, newId);
  }

  // ----- Waiting -----

  /** A revocation that has come to all its rows is done. */
  ghost predicate VisitsEnd(s: State) {
    forall t :: t in s.open && s.open[t].stage == Selected ==> s.open[t].unvisited != {}
  }

  lemma StatementHasVisits(s: State, t: TransactionId, newId: SessionId)
    requires t in s.open && Statement(s, t, newId).Go?
    ensures
      var y := Statement(s, t, newId).next;
      y.stage == Selected ==> y.unvisited != {}
  {
  }

  lemma StepKeepsVisits(s: State, a: Action, s': State)
    requires VisitsEnd(s) && Step(s, a) == Some(s')
    ensures VisitsEnd(s')
  {
    if a.Execute? && Statement(s, a.t, a.newId).Go? {
      StatementHasVisits(s, a.t, a.newId);
      OneReplaced(s, a.t, Statement(s, a.t, a.newId).next);
    } else if a.Visit? {
      OneReplaced(s, a.t, AfterVisit(s.tables, s.open[a.t], a.id));
    }
  }

  lemma OneReplaced(s: State, t: TransactionId, y: Transaction)
    requires VisitsEnd(s) && (y.stage == Selected ==> y.unvisited != {})
    ensures VisitsEnd(s.(open := s.open[t := y]))
  {
  }

  lemma {:induction false} VisitsEndInRuns(states: seq<State>, actions: seq<Action>, k: nat)
    requires IsRun(states, actions) && k < |states| && VisitsEnd(states[0])
    ensures VisitsEnd(states[k])
    decreases k
  {
    if k > 0 {
      VisitsEndInRuns(states, actions, k - 1);
      StepKeepsVisits(states[k - 1], actions[k - 1], states[k]);
    }
  }

  /** No other transaction has locked a row that the step from x to y locks. */
  predicate Unopposed(s: State, t: TransactionId, x: Transaction, y: Transaction) {
    forall o :: o in s.open && o != t ==> (y.held - x.held) !! s.open[o].held
  }

  lemma UnopposedRows(s: State, t: TransactionId, x: Transaction, y: Transaction)
    requires t in s.open && x == s.open[t] && forall o :: o in s.open && o != t ==> x.held !! s.open[o].held
    ensures Unopposed(s, t, x, y) <==> forall row :: row in y.held ==> Free(s, t, row)
  {
  }

  predicate Delayed(s: State, t: TransactionId, alone: Outcome, here: Outcome) {
    && (!alone.Go? ==> here == alone)
    && (alone.Go? ==> here == if forall row :: row in alone.next.held ==> Free(s, t, row) then alone else Wait)
  }

  lemma IssueDelays(s: State, t: TransactionId, newId: SessionId)
    requires t in s.open && forall row :: row in s.open[t].held ==> Free(s, t, row)
    requires s.open[t].request.Issue?
    ensures Delayed(s, t, Next(s.tables, s.open[t], newId), Statement(s, t, newId))
  {
    assert forall row :: Free(State(s.tables, s.open[t].now, map[0 := s.open[t]]), 0, row);
  }

  lemma AuthenticationDelays(s: State, t: TransactionId, newId: SessionId)
    requires t in s.open && forall row :: row in s.open[t].held ==> Free(s, t, row)
    requires s.open[t].request.Authenticate?
    ensures Delayed(s, t, Next(s.tables, s.open[t], newId), Statement(s, t, newId))
  {
    assert forall row :: Free(State(s.tables, s.open[t].now, map[0 := s.open[t]]), 0, row);
  }

  lemma RotationDelays(s: State, t: TransactionId, newId: SessionId)
    requires t in s.open && forall row :: row in s.open[t].held ==> Free(s, t, row)
    requires s.open[t].request.Rotate?
    ensures Delayed(s, t, Next(s.tables, s.open[t], newId), Statement(s, t, newId))
  {
    assert forall row :: Free(State(s.tables, s.open[t].now, map[0 := s.open[t]]), 0, row);
  }

  lemma OtherDelays(s: State, t: TransactionId, newId: SessionId)
    requires t in s.open && forall row :: row in s.open[t].held ==> Free(s, t, row)
    requires !s.open[t].request.Issue? && !s.open[t].request.Authenticate? && !s.open[t].request.Rotate?
    ensures Delayed(s, t, Next(s.tables, s.open[t], newId), Statement(s, t, newId))
  {
    assert forall row :: Free(State(s.tables, s.open[t].now, map[0 := s.open[t]]), 0, row);
  }

  lemma StatementDelays(s: State, t: TransactionId, newId: SessionId)
    requires t in s.open && forall row :: row in s.open[t].held ==> Free(s, t, row)
    ensures Delayed(s, t, Next(s.tables, s.open[t], newId), Statement(s, t, newId))
  {
    match s.open[t].request
    case Issue(_) => IssueDelays(s, t, newId);
    case Authenticate(_) => AuthenticationDelays(s, t, newId);
    case Rotate(_, _) => RotationDelays(s, t, newId);
    case _ => OtherDelays(s, t, newId);
  }

  lemma NeverWaitsAlone(t: Tables, x: Transaction, newId: SessionId)
    requires Knows(t, x) && newId !in t.issued && x.stage != Selected && x.stage != Done && x.stage != Nothing
    ensures Next(t, x, newId) != Wait
  {
    assert forall row :: Free(State(t, x.now, map[0 := x]), 0, row);
  }

  /** In spite of others a statement does what it does alone, exactly if no other transaction has locked a row that it
      locks, and waits otherwise. Alone it never waits, if the identifier on offer is new. */
  lemma WaitsExactlyForLocks(s: State, t: TransactionId, newId: SessionId)
    requires Invariant(s) && t in s.open
    ensures
      var alone, here := Next(s.tables, s.open[t], newId), Statement(s, t, newId);
      && (!alone.Go? ==> here == alone)
      && (alone.Go? ==> here == if Unopposed(s, t, s.open[t], alone.next) then alone else Wait)
    ensures
      newId !in s.tables.issued && s.open[t].stage != Selected && s.open[t].stage != Done && s.open[t].stage != Nothing ==>
      Next(s.tables, s.open[t], newId) != Wait
  {
    var x, alone := s.open[t], Next(s.tables, s.open[t], newId);
    UnopposedRows(s, t, x, x);
    StatementDelays(s, t, newId);
    if alone.Go? {
      UnopposedRows(s, t, x, alone.next);
    }
    if newId !in s.tables.issued && x.stage != Selected && x.stage != Done && x.stage != Nothing {
      assert Knows(s.tables, x);
      NeverWaitsAlone(s.tables, x, newId);
    }
  }

  /** A revocation comes to each row that it has selected, when no other transaction has locked the row, and there is
      always such a row until it is done. */
  lemma VisitsAreExact(s: State, t: TransactionId, id: SessionId)
    requires VisitsEnd(s)
    ensures
      Step(s, Visit(t, id)).Some? <==>
      && t in s.open && s.open[t].stage == Selected && id in s.open[t].unvisited
      && forall o :: o in s.open && o != t ==> SessionRow(id) !in s.open[o].held
    ensures t in s.open && s.open[t].stage == Selected ==> exists row :: row in s.open[t].unvisited
  {
  }

  /** Transactions begin whenever their number is free, with the clock of the moment. They commit exactly at their end,
      when they execute nothing more; an error and an abort, which may come at any time, leave nothing behind. */
  lemma BeginAndEndAreExact(s: State, t: TransactionId, request: Request, newId: SessionId)
    ensures
      Step(s, Begin(t, request)) ==
      if t in s.open then None
      else Some(s.(open := s.open[t := Transaction(request, s.clock, Begun, {}, {}, map[], map[])]))
    ensures Step(s, Commit(t)).Some? <==> t in s.open && (s.open[t].stage == Done || s.open[t].stage == Nothing)
    ensures Step(s, Commit(t)).Some? ==> Step(s, Execute(t, newId)) == None
    ensures t in s.open && Statement(s, t, newId) == Throw ==> Step(s, Execute(t, newId)) == Some(s.(open := s.open - {t}))
    ensures t in s.open ==> Step(s, Abort(t)) == Some(s.(open := s.open - {t}))
  {
  }
}
