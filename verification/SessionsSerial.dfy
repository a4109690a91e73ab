/** Session transactions are serializable in the order of their commits, but for revocations: these revoke what was live
    when their one statement selected its rows, and miss every session that has come since. */
module SessionsSerial {
  import opened Wrappers
  import opened Sessions
  import opened SessionExpiry
  import opened SessionInvariant
  import opened SessionsAlone

  predicate IsRevocation(r: Request) {
    r.Revoke? || r.RevokeAllForUser?
  }

  // ----- A commit is a lone run -----

  /** The identifier that a transaction has generated, where it generates one. */
  ghost function NewId(x: Transaction): SessionId {
    if x.request.Issue? && exists n :: n in x.sessionWrites then
      var n :| n in x.sessionWrites; n
    else if x.request.Rotate? && exists n :: n in x.sessionWrites && n != x.request.session then
      var n :| n in x.sessionWrites && n != x.request.session; n
    else 0
  }

  lemma IssueIsEffect(t: Tables, x: Transaction)
    requires x.request.Issue? && Knows(t, x) && x.stage == Done
    ensures NewId(x) !in t.issued && Effect(t, x.request, x.now, NewId(x)) == Some(Committed(t, x))
  {
    var n :| x.sessionWrites.Keys == {n} && NewRow(t, x, n, x.request.user);
    assert n in x.sessionWrites && NewId(x) in x.sessionWrites.Keys;
    assert t.sessions + x.sessionWrites == t.sessions[n := x.sessionWrites[n]];
    assert t.users + x.userWrites == t.users;
  }

  lemma AuthenticationIsEffect(t: Tables, x: Transaction)
    requires x.request.Authenticate? && t.sessions.Keys <= t.issued && Knows(t, x) && x.stage == Done
    ensures Effect(t, x.request, x.now, NewId(x)) == Some(Committed(t, x))
  {
    assert t.sessions + x.sessionWrites == AuthenticateEffect(t, x.request.session, x.now).sessions;
    assert t.issued + x.sessionWrites.Keys == t.issued;
    assert t.users + x.userWrites == t.users;
  }

  lemma RotationIsEffect(t: Tables, x: Transaction)
    requires x.request.Rotate? && t.sessions.Keys <= t.issued && Knows(t, x) && x.stage == Done
    ensures NewId(x) !in t.issued && Effect(t, x.request, x.now, NewId(x)) == Some(Committed(t, x))
  {
    var s, u := x.request.session, x.request.user;
    var n :| NewRow(t, x, n, u)
      && x.sessionWrites == map[s := t.sessions[s].(revokedAt := Some(x.now))][n := NewSession(u, x.now)];
    assert n in x.sessionWrites && n != s && NewId(x) == n;
    assert t.sessions + x.sessionWrites == WithNewSession(WithRevoked(t, {s}, x.now), n, u, x.now).sessions;
    assert t.issued + x.sessionWrites.Keys == t.issued + {n};
    assert t.users + x.userWrites == t.users;
  }

  lemma BlockingIsEffect(t: Tables, x: Transaction)
    requires x.request.BlockUser? && t.sessions.Keys <= t.issued && Knows(t, x) && x.stage == Done
    ensures Effect(t, x.request, x.now, NewId(x)) == Some(Committed(t, x))
  {
    var u := x.request.user;
    assert t.sessions + x.sessionWrites == WithRevoked(t, SessionsOf(t, u), x.now).sessions;
    assert t.issued + x.sessionWrites.Keys == t.issued;
    assert t.users + x.userWrites == t.users[u := Some(x.now)];
  }

  lemma UnblockingIsEffect(t: Tables, x: Transaction)
    requires x.request.UnblockUser? && Knows(t, x) && x.stage == Done
    ensures Effect(t, x.request, x.now, NewId(x)) == Some(Committed(t, x))
  {
    assert t.sessions + x.sessionWrites == t.sessions && t.issued + x.sessionWrites.Keys == t.issued;
    assert t.users + x.userWrites == t.users[x.request.user := None];
  }

  /** Whatever happened since a transaction began, its commit has the effect that it promises on the tables of the
      moment, as if it ran alone there. */
  lemma CommitIsLoneRun(t: Tables, x: Transaction, unused: SessionId)
    requires t.sessions.Keys <= t.issued && Knows(t, x) && x.stage == Done && !IsRevocation(x.request)
    requires unused !in t.issued
    ensures
      var id := if x.request.Issue? || x.request.Rotate? then NewId(x) else unused;
      Alone(t, x.request, x.now, id) == Some(Committed(t, x))
  {
    match x.request {
      case Issue(_) => IssueIsEffect(t, x);
      case Authenticate(_) => AuthenticationIsEffect(t, x);
      case Rotate(_, _) => RotationIsEffect(t, x);
      case BlockUser(_) => BlockingIsEffect(t, x);
      case UnblockUser(_) => UnblockingIsEffect(t, x);
    }
    AloneIsEffect(t, x.request, x.now, if x.request.Issue? || x.request.Rotate? then NewId(x) else unused);
  }

  // ----- A run is a serial run -----

  /** What changes the tables: a transaction with its promised effect, the revocation of some rows, or a new user. */
  datatype Deed = Did(request: Request, now: int, id: SessionId) | Revoked(ids: set<SessionId>, now: int) | Joined(u: UserId)

  ghost function DeedOf(s: State, a: Action): seq<Deed> {
    match a
    case Commit(t) =>
      if t !in s.open || s.open[t].stage != Done then []
      else
        var x := s.open[t];
        [if IsRevocation(x.request) then Revoked(x.sessionWrites.Keys, x.now) else Did(x.request, x.now, NewId(x))]
    case AddUser(u) => [Joined(u)]
    case _ => []
  }

  ghost function Deeds(states: seq<State>, actions: seq<Action>): seq<Deed>
    requires |states| == |actions| + 1
  {
    if actions == [] then []
    else
      var n := |actions| - 1;
      Deeds(states[..n + 1], actions[..n]) + DeedOf(states[n], actions[n])
  }

  function Serially(t: Tables, deeds: seq<Deed>): Option<Tables> {
    if deeds == [] then Some(t)
    else
      match Serially(t, deeds[..|deeds| - 1])
      case None => None
      case Some(before) =>
        match deeds[|deeds| - 1]
        case Did(request, now, id) => Effect(before, request, now, id)
        case Revoked(ids, now) => Some(WithRevoked(before, ids, now))
        case Joined(u) => Some(before.(users := before.users[u := None]))
  }

  lemma CommitIsDeed(t: Tables, x: Transaction)
    requires t.sessions.Keys <= t.issued && Knows(t, x) && x.stage == Done
    ensures
      Some(Committed(t, x)) ==
      if IsRevocation(x.request) then Some(WithRevoked(t, x.sessionWrites.Keys, x.now)) else Effect(t, x.request, x.now, NewId(x))
  {
    match x.request {
      case Issue(_) => IssueIsEffect(t, x);
      case Authenticate(_) => AuthenticationIsEffect(t, x);
      case Rotate(_, _) => RotationIsEffect(t, x);
      case BlockUser(_) => BlockingIsEffect(t, x);
      case UnblockUser(_) => UnblockingIsEffect(t, x);
      case _ =>
        assert t.sessions + x.sessionWrites == WithRevoked(t, x.sessionWrites.Keys, x.now).sessions;
        assert t.issued + x.sessionWrites.Keys == t.issued && t.users + x.userWrites == t.users;
    }
  }

  lemma NothingIsCommitted(t: Tables, x: Transaction)
    requires Knows(t, x) && x.stage == Nothing
    ensures Committed(t, x) == t
  {
    assert x.userWrites == map[] && x.sessionWrites == map[];
    assert t.users + map[] == t.users && t.sessions + map[] == t.sessions;
    assert x.sessionWrites.Keys == {} && t.issued + x.sessionWrites.Keys == t.issued;
  }

  lemma IdleSteps(s: State, a: Action, s': State)
    requires Invariant(s) && Step(s, a) == Some(s') && DeedOf(s, a) == []
    ensures s'.tables == s.tables
  {
    if a.Commit? {
      var x := s.open[a.t];
      assert Knows(s.tables, x) && x.stage == Nothing;
      NothingIsCommitted(s.tables, x);
    }
  }

  lemma StepIsSerial(first: Tables, deeds: seq<Deed>, s: State, a: Action, s': State)
    requires Invariant(s) && Step(s, a) == Some(s') && Serially(first, deeds) == Some(s.tables)
    ensures Serially(first, deeds + DeedOf(s, a)) == Some(s'.tables)
  {
    var more := DeedOf(s, a);
    if more == [] {
      assert deeds + more == deeds;
      IdleSteps(s, a, s');
    } else {
      assert (deeds + more)[..|deeds|] == deeds;
      if a.Commit? {
        assert Knows(s.tables, s.open[a.t]);
        CommitIsDeed(s.tables, s.open[a.t]);
      }
    }
  }

  /** Every run ends with the tables of a serial run: the promised effects, in the order in which the transactions
      committed, where a revocation revokes the rows that it has written. */
  lemma {:induction false} RunsAreSerial(states: seq<State>, actions: seq<Action>)
    requires IsRun(states, actions) && Quiet(states[0])
    ensures Serially(states[0].tables, Deeds(states, actions)) == Some(states[|actions|].tables)
    decreases |actions|
  {
    if actions != [] {
      var n := |actions| - 1;
      var before, deeds := states[..n + 1], Deeds(states[..n + 1], actions[..n]);
      assert IsRun(before, actions[..n]) && before[n] == states[n];
      RunsAreSerial(before, actions[..n]);
      InvariantHolds(states, actions, n);
      StepIsSerial(states[0].tables, deeds, states[n], actions[n], states[n + 1]);
    }
  }

  // ----- What a revocation revokes -----

  predicate Targets(r: Request, t: Tables, s: SessionId)
    requires IsRevocation(r)
  {
    s in t.sessions && (if r.Revoke? then s == r.session else t.sessions[s].user == r.user)
  }

  predicate LiveTarget(r: Request, t: Tables, s: SessionId)
    requires IsRevocation(r)
  {
    Targets(r, t, s) && t.sessions[s].revokedAt.None?
  }

  /** From one state to another the transaction is neither committed nor aborted. */
  ghost predicate StaysOpen(states: seq<State>, j: nat, k: nat, t: TransactionId)
    requires k < |states|
  {
    forall i :: j < i <= k ==> t in states[i].open
  }

  /** Every row that the statement of the revocation has selected is written, or still to come, or was found revoked; and
      it writes no other. */
  ghost predicate Accounts(first: Tables, r: Request, t: Tables, x: Transaction)
    requires IsRevocation(r)
  {
    && x.request == r && x.stage in {Selected, Done}
    && (forall s :: s in x.sessionWrites || s in x.unvisited ==> LiveTarget(r, first, s))
    && (forall s :: LiveTarget(r, first, s) ==>
          Targets(r, t, s) && (s in x.sessionWrites || s in x.unvisited || t.sessions[s].revokedAt.Some?))
  }

  lemma SelectionAccounts(s: State, t: TransactionId, newId: SessionId, s': State)
    requires Invariant(s) && Step(s, Execute(t, newId)) == Some(s') && IsRevocation(s.open[t].request) && t in s'.open
    ensures Accounts(s.tables, s.open[t].request, s'.tables, s'.open[t])
  {
    assert Knows(s.tables, s.open[t]);
  }

  lemma StepAccounts(first: Tables, r: Request, s: State, a: Action, s': State, t: TransactionId)
    requires Invariant(s) && Step(s, a) == Some(s') && IsRevocation(r) && t in s.open && t in s'.open
    requires Accounts(first, r, s.tables, s.open[t])
    ensures Accounts(first, r, s'.tables, s'.open[t])
  {
    forall i | LiveTarget(r, first, i)
      ensures Targets(r, s'.tables, i) && (s.tables.sessions[i].revokedAt.Some? ==> s'.tables.sessions[i].revokedAt.Some?)
    {
      StepOnSession(s, a, s', i);
    }
    StepOnRevocation(s, a, s', t);
  }

  /** Only its own visits change an open revocation whose statement has begun. */
  lemma StepOnRevocation(s: State, a: Action, s': State, t: TransactionId)
    requires Step(s, a) == Some(s') && t in s.open && t in s'.open
    requires IsRevocation(s.open[t].request) && s.open[t].stage in {Selected, Done}
    ensures
      if a.Visit? && a.t == t then a.id in s.open[t].unvisited && s'.open[t] == AfterVisit(s.tables, s.open[t], a.id)
      else s'.open[t] == s.open[t]
  {
  }

  lemma {:induction false} RevocationAccounts(
    states: seq<State>, actions: seq<Action>, j: nat, k: nat, t: TransactionId, newId: SessionId)
    requires IsRun(states, actions) && Quiet(states[0]) && j < k < |states| && StaysOpen(states, j, k, t)
    requires actions[j] == Execute(t, newId) && t in states[j].open && IsRevocation(states[j].open[t].request)
    ensures Accounts(states[j].tables, states[j].open[t].request, states[k].tables, states[k].open[t])
    decreases k
  {
    assert t in states[k].open;
    if k == j + 1 {
      SelectionInRun(states, actions, j, t, newId);
    } else {
      assert t in states[k - 1].open;
      RevocationAccounts(states, actions, j, k - 1, t, newId);
      AccountsInRun(states, actions, k - 1, t, states[j].tables, states[j].open[t].request);
    }
  }

  lemma SelectionInRun(states: seq<State>, actions: seq<Action>, j: nat, t: TransactionId, newId: SessionId)
    requires IsRun(states, actions) && Quiet(states[0]) && j < |actions| && t in states[j].open && t in states[j + 1].open
    requires actions[j] == Execute(t, newId) && IsRevocation(states[j].open[t].request)
    ensures Accounts(states[j].tables, states[j].open[t].request, states[j + 1].tables, states[j + 1].open[t])
  {
    InvariantHolds(states, actions, j);
    SelectionAccounts(states[j], t, newId, states[j + 1]);
  }

  lemma AccountsInRun(states: seq<State>, actions: seq<Action>, k: nat, t: TransactionId, first: Tables, r: Request)
    requires IsRun(states, actions) && Quiet(states[0]) && k < |actions| && t in states[k].open && t in states[k + 1].open
    requires IsRevocation(r) && Accounts(first, r, states[k].tables, states[k].open[t])
    ensures Accounts(first, r, states[k + 1].tables, states[k + 1].open[t])
  {
    InvariantHolds(states, actions, k);
    StepAccounts(first, r, states[k], actions[k], states[k + 1], t);
  }

  /** A revocation whose statement selects its rows in state j, comes to them in any order while others commit, and
      commits in state k, leaves a session that it targets alive if and only if the session is live in state k and did not
      exist when the rows were selected. */
  lemma RevocationsMissExactly(
    states: seq<State>, actions: seq<Action>, j: nat, k: nat, t: TransactionId, newId: SessionId, s: SessionId)
    requires IsRun(states, actions) && Quiet(states[0]) && j < k < |actions| && StaysOpen(states, j, k, t)
    requires actions[j] == Execute(t, newId) && t in states[j].open && IsRevocation(states[j].open[t].request)
    requires actions[k] == Commit(t)
    ensures
      var r := states[j].open[t].request;
      LiveTarget(r, states[k + 1].tables, s) <==> LiveTarget(r, states[k].tables, s) && s !in states[j].tables.sessions
  {
    var r, x := states[j].open[t].request, states[k].open[t];
    InvariantHolds(states, actions, k);
    RevocationAccounts(states, actions, j, k, t, newId);
    assert Step(states[k], actions[k]) == Some(states[k + 1]);
    if s in states[j].tables.sessions {
      RunOnSession(states, actions, j, k, s);
    }
    RevocationCommitsExactly(states[j].tables, r, states[k].tables, x, s);
  }

  lemma RevocationCommitsExactly(first: Tables, r: Request, t: Tables, x: Transaction, s: SessionId)
    requires IsRevocation(r) && Knows(t, x) && x.stage == Done && Accounts(first, r, t, x)
    requires s in first.sessions ==> s in t.sessions && Evolves(first.sessions[s], t.sessions[s])
    ensures LiveTarget(r, Committed(t, x), s) <==> LiveTarget(r, t, s) && s !in first.sessions
  {
  }

  lemma SurvivorsAreNew(states: seq<State>, actions: seq<Action>, j: nat, k: nat, t: TransactionId, newId: SessionId)
    requires IsRun(states, actions) && Quiet(states[0]) && j < k < |actions| && StaysOpen(states, j, k, t)
    requires actions[j] == Execute(t, newId) && t in states[j].open && IsRevocation(states[j].open[t].request)
    requires actions[k] == Commit(t)
    ensures
      var r := states[j].open[t].request;
      forall s: SessionId ::
        LiveTarget(r, states[k + 1].tables, s) <==> LiveTarget(r, states[k].tables, s) && s !in states[j].tables.sessions
  {
    forall s: SessionId
      ensures
        var r := states[j].open[t].request;
        LiveTarget(r, states[k + 1].tables, s) <==> LiveTarget(r, states[k].tables, s) && s !in states[j].tables.sessions
    {
      RevocationsMissExactly(states, actions, j, k, t, newId, s);
    }
  }

  /** So a revocation acts as if alone at the moment of its commit if and only if every session that it targets and that is
      live at that moment existed when its rows were selected. */
  lemma RevocationIsLoneRunUnlessItMisses(
    states: seq<State>, actions: seq<Action>, j: nat, k: nat, t: TransactionId, newId: SessionId, unused: SessionId)
    requires IsRun(states, actions) && Quiet(states[0]) && j < k < |actions| && StaysOpen(states, j, k, t)
    requires actions[j] == Execute(t, newId) && t in states[j].open && IsRevocation(states[j].open[t].request)
    requires actions[k] == Commit(t) && unused !in states[k].tables.issued
    ensures
      var r := states[j].open[t].request;
      Alone(states[k].tables, r, states[k].open[t].now, unused) == Some(states[k + 1].tables) <==>
      forall s :: LiveTarget(r, states[k].tables, s) ==> s in states[j].tables.sessions
  {
    var r, x, before := states[j].open[t].request, states[k].open[t], states[k].tables;
    InvariantHolds(states, actions, k);
    RevocationAccounts(states, actions, j, k, t, newId);
    CommitIsEnabled(states[k], t, states[k + 1]);
    SurvivorsAreNew(states, actions, j, k, t, newId);
    AloneIsEffect(before, r, x.now, unused);
    EffectUnlessMissed(before, x, unused);
  }

  lemma CommitIsEnabled(s: State, t: TransactionId, s': State)
    requires Invariant(s) && Step(s, Commit(t)) == Some(s')
    ensures t in s.open && Knows(s.tables, s.open[t]) && s.open[t].stage in {Done, Nothing}
    ensures s'.tables == Committed(s.tables, s.open[t])
  {
  }

  /** A revocation's commit has its promised effect if and only if it leaves none of its targets alive. */
  lemma EffectUnlessMissed(t: Tables, x: Transaction, unused: SessionId)
    requires t.sessions.Keys <= t.issued && Knows(t, x) && x.stage == Done && IsRevocation(x.request)
    requires forall s :: s in x.sessionWrites ==> Targets(x.request, t, s)
    ensures
      Effect(t, x.request, x.now, unused) == Some(Committed(t, x)) <==>
      forall s :: !LiveTarget(x.request, Committed(t, x), s)
  {
    var after, among := Committed(t, x), if x.request.Revoke? then {x.request.session} else SessionsOf(t, x.request.user);
    var alone := WithRevoked(t, among, x.now);
    assert t.issued + x.sessionWrites.Keys == t.issued && t.users + x.userWrites == t.users;
    assert forall s :: s in t.sessions ==> (s in among <==> Targets(x.request, t, s));
    if forall s :: !LiveTarget(x.request, after, s) {
      forall s | s in t.sessions
        ensures after.sessions[s] == alone.sessions[s]
      {
        assert !LiveTarget(x.request, after, s);
      }
      assert after.sessions == alone.sessions;
    } else {
      var s :| LiveTarget(x.request, after, s);
      assert s in t.sessions && alone.sessions[s].revokedAt.Some?;
    }
  }

  /** It does miss them: a session issued while the revocation of all sessions waits to commit survives it, though the
      same revocation alone at that moment would revoke it. */
  lemma RevocationMissesNewSession() returns (states: seq<State>, actions: seq<Action>)
    ensures IsRun(states, actions) && Quiet(states[0]) && |actions| == 7
    ensures actions[0] == Begin(1, RevokeAllForUser(0)) && actions[6] == Commit(1)
    ensures LiveSessions(states[7].tables, 0) == {5}
    ensures
      var alone := Alone(states[6].tables, RevokeAllForUser(0), 0, 6);
      alone.Some? && LiveSessions(alone.value, 0) == {}
  {
    var first, a := RevocationWaits();
    var second, b := IssueOvertakes(first[3]);
    states, actions := first + second[1..], a + b;
    JoinRuns(first, a, second, b);
    assert states[6] == second[3] && states[7] == second[4];
    OneSessionIsLive(second[3].tables);
  }

  lemma RevocationWaits() returns (states: seq<State>, actions: seq<Action>)
    ensures IsRun(states, actions) && Quiet(states[0]) && |actions| == 3 && actions[0] == Begin(1, RevokeAllForUser(0))
    ensures
      states[3] == State(Tables(map[0 := None], map[], {}, []), 0,
                         map[1 := Started(RevokeAllForUser(0), 0).(stage := Done), 2 := Started(Issue(0), 0)])
  {
    var s0 := State(Tables(map[0 := None], map[], {}, []), 0, map[]);
    var s1 := Step(s0, Begin(1, RevokeAllForUser(0))).value;
    var s2 := Step(s1, Begin(2, Issue(0))).value;
    var s3 := RevocationOfNone(s2);
    states, actions := [s0, s1, s2, s3], [Begin(1, RevokeAllForUser(0)), Begin(2, Issue(0)), Execute(1, 0)];
  }

  lemma IssueOvertakes(s: State) returns (states: seq<State>, actions: seq<Action>)
    requires s.tables == Tables(map[0 := None], map[], {}, []) && s.clock == 0
    requires s.open == map[1 := Started(RevokeAllForUser(0), 0).(stage := Done), 2 := Started(Issue(0), 0)]
    ensures IsRun(states, actions) && states[0] == s && |actions| == 4 && actions[3] == Commit(1)
    ensures states[3].tables.sessions == map[5 := NewSession(0, 0)] && states[3].tables.issued == {5}
    ensures states[4].tables.sessions == states[3].tables.sessions
  {
    var s1, s2, s3 := IssueBeside(s, s.open[1]);
    var s4 := EmptyRevocationCommits(s3);
    states, actions := [s, s1, s2, s3, s4], [Execute(2, 5), Execute(2, 5), Commit(2), Commit(1)];
  }

  lemma EmptyRevocationCommits(s: State) returns (next: State)
    requires 1 in s.open && s.open[1] == Started(RevokeAllForUser(0), 0).(stage := Done)
    ensures Step(s, Commit(1)) == Some(next) && next.tables.sessions == s.tables.sessions
  {
    next := Step(s, Commit(1)).value;
    assert s.tables.sessions + map[] == s.tables.sessions;
  }

  lemma OneSessionIsLive(t: Tables)
    requires t.sessions == map[5 := NewSession(0, 0)] && t.issued == {5}
    ensures LiveSessions(t, 0) == {5}
    ensures
      var alone := Alone(t, RevokeAllForUser(0), 0, 6);
      alone.Some? && LiveSessions(alone.value, 0) == {}
  {
    AloneIsEffect(t, RevokeAllForUser(0), 0, 6);
  }

  lemma RevocationOfNone(s: State) returns (next: State)
    requires s.tables.sessions == map[] && 1 in s.open && s.open[1] == Started(RevokeAllForUser(0), 0)
    ensures Step(s, Execute(1, 0)) == Some(next)
    ensures next == s.(open := s.open[1 := Started(RevokeAllForUser(0), 0).(stage := Done)])
  {
    assert LiveSessions(s.tables, 0) == {};
    next := Step(s, Execute(1, 0)).value;
  }

  lemma IssueCommits(s: State, other: Transaction) returns (next: State)
    requires s.tables == Tables(map[0 := None], map[], {}, []) && s.clock == 0 && s.open.Keys == {1, 2} && s.open[1] == other
    requires s.open[2].request.Issue? && s.open[2].stage == Done
    requires s.open[2].userWrites == map[] && s.open[2].sessionWrites == map[5 := NewSession(0, 0)]
    ensures Step(s, Commit(2)) == Some(next)
    ensures next == State(Tables(map[0 := None], map[5 := NewSession(0, 0)], {5}, []), 0, map[1 := other])
  {
    next := Step(s, Commit(2)).value;
    assert s.open - {2} == map[1 := other];
  }

  lemma IssueBeside(s: State, other: Transaction) returns (s1: State, s2: State, s3: State)
    requires s == State(Tables(map[0 := None], map[], {}, []), 0, map[1 := other, 2 := Started(Issue(0), 0)]) && other.held == {}
    ensures Step(s, Execute(2, 5)) == Some(s1) && Step(s1, Execute(2, 5)) == Some(s2) && Step(s2, Commit(2)) == Some(s3)
    ensures s3 == State(Tables(map[0 := None], map[5 := NewSession(0, 0)], {5}, []), 0, map[1 := other])
  {
    s1 := Step(s, Execute(2, 5)).value;
    s2 := Step(s1, Execute(2, 5)).value;
    s3 := IssueCommits(s2, other);
  }

  // ----- A rotation while the revocation waits -----

  /** User 0 with session 5. */
  const LOGGED_IN := Tables(map[0 := None], map[5 := NewSession(0, 0)], {5}, [])

  function Revoking(stage: Stage, unvisited: set<SessionId>): Transaction {
    Started(RevokeAllForUser(0), 0).(stage := stage, unvisited := unvisited)
  }

  /** The revocation of all sessions has selected session 5 and waits for its row, which a rotation holds. The rotation
      commits; the row is found revoked, and the session that took its place survives, though it exists before the
      statement of the revocation ends. */
  lemma RevocationMissesRotatedSession() returns (states: seq<State>, actions: seq<Action>)
    ensures IsRun(states, actions) && Quiet(states[0]) && |actions| == 9
    ensures actions[3] == Execute(1, 0) && actions[7] == Visit(1, 5) && actions[8] == Commit(1)
    ensures 1 in states[3].open && states[3].open[1].request == RevokeAllForUser(0) && StaysOpen(states, 3, 8, 1)
    ensures LiveSessions(states[7].tables, 0) == {6} && LiveSessions(states[9].tables, 0) == {6}
  {
    var first, a := RotationHoldsRow();
    var second, b := RotationOvertakes(first[4]);
    states, actions := first + second[1..], a + b;
    JoinRuns(first, a, second, b);
    assert states[5] == second[1] && states[6] == second[2] && states[7] == second[3] && states[8] == second[4] && states[9] == second[5];
  }

  lemma RotationHoldsRow() returns (states: seq<State>, actions: seq<Action>)
    ensures IsRun(states, actions) && Quiet(states[0])
    ensures actions == [Begin(1, RevokeAllForUser(0)), Begin(2, Rotate(5, 0)), Execute(2, 0), Execute(1, 0)]
    ensures states[3].open.Keys == {1, 2} && states[3].open[1].request == RevokeAllForUser(0)
    ensures
      states[4] == State(LOGGED_IN, 0, map[1 := Revoking(Selected, {5}),
                                           2 := Started(Rotate(5, 0), 0).(stage := Locked, held := {SessionRow(5), UserRow(0)})])
  {
    var s0 := State(LOGGED_IN, 0, map[]);
    var s1 := State(LOGGED_IN, 0, map[1 := Revoking(Begun, {})]);
    var s2 := State(LOGGED_IN, 0, map[1 := Revoking(Begun, {}), 2 := Started(Rotate(5, 0), 0)]);
    var rotation := Started(Rotate(5, 0), 0).(stage := Locked, held := {SessionRow(5), UserRow(0)});
    var s3 := State(LOGGED_IN, 0, map[1 := Revoking(Begun, {}), 2 := rotation]);
    var s4 := State(LOGGED_IN, 0, map[1 := Revoking(Selected, {5}), 2 := rotation]);
    assert {} + {SessionRow(5), UserRow(0)} == rotation.held;
    assert Statement(s2, 2, 0) == Go(rotation);
    assert s2.open[2 := rotation] == s3.open;
    assert LiveSessions(LOGGED_IN, 0) == {5};
    assert Statement(s3, 1, 0) == Go(Revoking(Selected, {5}));
    assert s3.open[1 := Revoking(Selected, {5})] == s4.open;
    states := [s0, s1, s2, s3, s4];
    actions := [Begin(1, RevokeAllForUser(0)), Begin(2, Rotate(5, 0)), Execute(2, 0), Execute(1, 0)];
  }

  lemma RotationOvertakes(s: State) returns (states: seq<State>, actions: seq<Action>)
    requires
      s == State(LOGGED_IN, 0, map[1 := Revoking(Selected, {5}),
                                   2 := Started(Rotate(5, 0), 0).(stage := Locked, held := {SessionRow(5), UserRow(0)})])
    ensures IsRun(states, actions) && states[0] == s
    ensures actions == [Execute(2, 0), Execute(2, 6), Commit(2), Visit(1, 5), Commit(1)]
    ensures forall i :: 0 <= i <= 4 ==> 1 in states[i].open
    ensures LiveSessions(states[3].tables, 0) == {6} && LiveSessions(states[5].tables, 0) == {6}
  {
    var s1, s2 := RotationWrites(s);
    var s3 := RotationCommits(s2);
    var s4 := Step(s3, Visit(1, 5)).value;
    assert s4.open[1] == Revoking(Done, {});
    var s5 := Step(s4, Commit(1)).value;
    assert s4.tables.sessions + map[] == s4.tables.sessions;
    states, actions := [s, s1, s2, s3, s4, s5], [Execute(2, 0), Execute(2, 6), Commit(2), Visit(1, 5), Commit(1)];
  }

  lemma RotationWrites(s: State) returns (s1: State, s2: State)
    requires
      s == State(LOGGED_IN, 0, map[1 := Revoking(Selected, {5}),
                                   2 := Started(Rotate(5, 0), 0).(stage := Locked, held := {SessionRow(5), UserRow(0)})])
    ensures Step(s, Execute(2, 0)) == Some(s1) && Step(s1, Execute(2, 6)) == Some(s2) && 1 in s1.open
    ensures s2.tables == LOGGED_IN && s2.clock == 0 && s2.open.Keys == {1, 2} && s2.open[1] == Revoking(Selected, {5})
    ensures s2.open[2].request == Rotate(5, 0) && s2.open[2].stage == Done && s2.open[2].userWrites == map[]
    ensures s2.open[2].sessionWrites == map[5 := NewSession(0, 0).(revokedAt := Some(0)), 6 := NewSession(0, 0)]
  {
    s1 := Step(s, Execute(2, 0)).value;
    s2 := Step(s1, Execute(2, 6)).value;
  }

  lemma RotationCommits(s: State) returns (next: State)
    requires s.tables == LOGGED_IN && s.clock == 0 && s.open.Keys == {1, 2} && s.open[1] == Revoking(Selected, {5})
    requires s.open[2].request == Rotate(5, 0) && s.open[2].stage == Done && s.open[2].userWrites == map[]
    requires s.open[2].sessionWrites == map[5 := NewSession(0, 0).(revokedAt := Some(0)), 6 := NewSession(0, 0)]
    ensures Step(s, Commit(2)) == Some(next) && next.open == map[1 := Revoking(Selected, {5})]
    ensures next.tables.sessions == map[5 := NewSession(0, 0).(revokedAt := Some(0)), 6 := NewSession(0, 0)]
    ensures LiveSessions(next.tables, 0) == {6}
  {
    next := Step(s, Commit(2)).value;
    assert s.open - {2} == map[1 := Revoking(Selected, {5})];
  }
}
