/** When an expired session can still be authenticated: exactly while a request is in flight that read the clock before
    the expiry. */
module SessionExpiry {
  import opened Wrappers
  import opened Sessions
  import opened SessionInvariant

  // ----- Expiry -----

  /** A request that is still in flight read the clock at a time at which the session is usable. */
  predicate Exposes(s: State, t: TransactionId, id: SessionId) {
    && t in s.open && s.open[t].request == Authenticate(id) && s.open[t].stage != Nothing
    && Usable(s.tables, id, s.open[t].now)
  }

  ghost predicate Exposed(s: State, id: SessionId) {
    exists t :: Exposes(s, t, id)
  }

  ghost predicate ExpiredForGood(s: State, id: SessionId) {
    && id in s.tables.sessions
    && s.clock >= s.tables.sessions[id].idleExpiresAt
    && !Exposed(s, id)
  }

  /** A row only becomes less usable, unless an authentication of it commits. */
  lemma CommitMakesNothingUsable(t: Tables, clock: int, x: Transaction, id: SessionId, now: int)
    requires TablesOk(t, clock) && Knows(t, x) && x.stage in {Done, Nothing} && id in t.sessions
    requires x.request == Authenticate(id) ==> x.stage == Nothing
    requires Usable(Committed(t, x), id, now)
    ensures Usable(t, id, now)
  {
  }

  lemma CommitKeepsExpiry(t: Tables, clock: int, x: Transaction, id: SessionId)
    requires TablesOk(t, clock) && Knows(t, x) && x.stage in {Done, Nothing} && id in t.sessions
    requires x.request == Authenticate(id) ==> x.stage == Nothing
    ensures id in Committed(t, x).sessions && Committed(t, x).sessions[id].idleExpiresAt == t.sessions[id].idleExpiresAt
  {
  }

  /** No step exposes an expired session anew. */
  lemma StepExposesNothing(s: State, a: Action, s': State, id: SessionId, t: TransactionId)
    requires Invariant(s) && Step(s, a) == Some(s') && id in s.tables.sessions
    requires s.clock >= s.tables.sessions[id].idleExpiresAt && !Authenticates(s, a, id) && Exposes(s', t, id)
    ensures Exposes(s, t, id)
  {
    match a
    case Commit(o) =>
      assert Knows(s.tables, s.open[o]);
      CommitMakesNothingUsable(s.tables, s.clock, s.open[o], id, s.open[t].now);
    case Execute(o, newId) =>
      if o == t {
        StatementKeeps(s, t, newId, Statement(s, t, newId).next);
      }
    case _ =>
  }

  lemma AuthenticationIsExposed(s: State, a: Action, s': State, id: SessionId)
    requires Invariant(s) && Step(s, a) == Some(s') && Authenticates(s, a, id)
    ensures Exposes(s, a.t, id)
  {
    assert Knows(s.tables, s.open[a.t]);
  }

  lemma StepKeepsExpiry(s: State, a: Action, s': State, id: SessionId)
    requires Invariant(s) && Step(s, a) == Some(s') && id in s.tables.sessions && !Authenticates(s, a, id)
    ensures id in s'.tables.sessions && s'.tables.sessions[id].idleExpiresAt == s.tables.sessions[id].idleExpiresAt
    ensures s.clock <= s'.clock
  {
    if a.Commit? {
      assert Knows(s.tables, s.open[a.t]);
      CommitKeepsExpiry(s.tables, s.clock, s.open[a.t], id);
    }
  }

  lemma StepKeepsExpired(s: State, a: Action, s': State, id: SessionId)
    requires Invariant(s) && Step(s, a) == Some(s') && ExpiredForGood(s, id)
    ensures ExpiredForGood(s', id) && Successes(s'.tables.log, id) == Successes(s.tables.log, id)
  {
    if Authenticates(s, a, id) {
      AuthenticationIsExposed(s, a, s', id);
    } else {
      StepOnSession(s, a, s', id);
      StepKeepsExpiry(s, a, s', id);
      if t :| Exposes(s', t, id) {
        StepExposesNothing(s, a, s', id, t);
      }
    }
  }

  /** An expired session that no request in flight exposes is never active and never authenticated again. */
  lemma {:induction false} ExpiryIsFinal(states: seq<State>, actions: seq<Action>, k: nat, id: SessionId)
    requires IsRun(states, actions) && k < |states| && Invariant(states[0]) && ExpiredForGood(states[0], id)
    ensures Invariant(states[k]) && ExpiredForGood(states[k], id)
    ensures !ActiveAt(states[k].tables.sessions[id], states[k].clock)
    ensures Successes(states[k].tables.log, id) == Successes(states[0].tables.log, id)
    decreases k
  {
    if k > 0 {
      ExpiryIsFinal(states, actions, k - 1, id);
      StepKeepsInvariant(states[k - 1], actions[k - 1], states[k]);
      StepKeepsExpired(states[k - 1], actions[k - 1], states[k], id);
    }
  }

  // ----- The other half -----

  lemma JoinRuns(first: seq<State>, a: seq<Action>, second: seq<State>, b: seq<Action>)
    requires IsRun(first, a) && IsRun(second, b) && first[|first| - 1] == second[0]
    ensures IsRun(first + second[1..], a + b)
  {
    var states, actions := first + second[1..], a + b;
    forall k | 0 <= k < |actions|
      ensures Step(states[k], actions[k]) == Some(states[k + 1])
    {
      if k >= |a| {
        assert actions[k] == b[k - |a|] && states[k] == second[k - |a|] && states[k + 1] == second[k - |a| + 1];
      }
    }
  }

  /** All other transactions can abort. */
  lemma {:induction false} AbortOthers(s: State, t: TransactionId) returns (states: seq<State>, actions: seq<Action>)
    requires t in s.open
    ensures IsRun(states, actions) && states[0] == s
    ensures states[|states| - 1] == s.(open := map[t := s.open[t]])
    decreases s.open.Keys
  {
    if o :| o in s.open && o != t {
      var s1 := s.(open := s.open - {o});
      var later, more := AbortOthers(s1, t);
      assert IsRun([s, s1], [Abort(o)]);
      states, actions := [s, s1] + later[1..], [Abort(o)] + more;
      JoinRuns([s, s1], [Abort(o)], later, more);
    } else {
      assert s.open == map[t := s.open[t]];
      states, actions := [s], [];
    }
  }

  /** A lone request that exposes a session, and the statements that it has yet to execute. */
  ghost predicate LoneRequest(s: State, t: TransactionId, id: SessionId, steps: nat) {
    && Invariant(s) && Exposes(s, t, id) && s.open.Keys == {t}
    && s.open[t].stage == match steps case 0 => Done case 1 => Locked case _ => Begun
  }

  lemma LoneStep(s: State, t: TransactionId, id: SessionId, steps: nat) returns (next: State)
    requires 0 < steps <= 2 && LoneRequest(s, t, id, steps)
    ensures Step(s, Execute(t, 0)) == Some(next) && LoneRequest(next, t, id, steps - 1) && next.tables == s.tables
  {
    next := Step(s, Execute(t, 0)).value;
    StepKeepsInvariant(s, Execute(t, 0), next);
  }

  /** A lone request that exposes a session authenticates it. */
  lemma {:induction false} LoneRequestSucceeds(s: State, t: TransactionId, id: SessionId, steps: nat)
    returns (states: seq<State>, actions: seq<Action>)
    requires steps <= 2 && LoneRequest(s, t, id, steps)
    ensures IsRun(states, actions) && states[0] == s
    ensures Successes(states[|states| - 1].tables.log, id) == Successes(s.tables.log, id) + 1
    decreases steps
  {
    if steps == 0 {
      var end := Step(s, Commit(t)).value;
      StepOnSession(s, Commit(t), end, id);
      states, actions := [s, end], [Commit(t)];
    } else {
      var next := LoneStep(s, t, id, steps);
      var later, more := LoneRequestSucceeds(next, t, id, steps - 1);
      JoinRuns([s, next], [Execute(t, 0)], later, more);
      states, actions := [s, next] + later[1..], [Execute(t, 0)] + more;
    }
  }

  /** An expired session can be authenticated again, in some run from here, if and only if a request in flight exposes
      it. */
  lemma ExpiryIsFinalUnlessExposed(s: State, id: SessionId)
    requires Invariant(s) && id in s.tables.sessions && s.clock >= s.tables.sessions[id].idleExpiresAt
    ensures
      (exists states: seq<State>, actions: seq<Action> ::
         IsRun(states, actions) && states[0] == s
         && Successes(states[|states| - 1].tables.log, id) > Successes(s.tables.log, id))
      <==> Exposed(s, id)
  {
    if Exposed(s, id) {
      var t :| Exposes(s, t, id);
      var first, a := AbortOthers(s, t);
      var alone := first[|first| - 1];
      assert Invariant(alone) && Knows(s.tables, s.open[t]);
      var steps := match s.open[t].stage case Done => 0 case Locked => 1 case _ => 2;
      var second, b := LoneRequestSucceeds(alone, t, id, steps);
      JoinRuns(first, a, second, b);
      var states := first + second[1..];
      assert states[|states| - 1] == second[|second| - 1];
      assert IsRun(states, a + b) && states[0] == s;
    } else {
      forall states: seq<State>, actions: seq<Action> | IsRun(states, actions) && states[0] == s
        ensures Successes(states[|states| - 1].tables.log, id) == Successes(s.tables.log, id)
      {
        ExpiryIsFinal(states, actions, |states| - 1, id);
      }
    }
  }

  /** An older request that still waits authenticates the session; if it touches the row, the session is active again. */
  lemma OlderRequestRevives(s: State, t: TransactionId, id: SessionId) returns (s1: State, s2: State, s3: State)
    requires Invariant(s) && t in s.open && s.open[t].request == Authenticate(id) && s.open[t].stage == Begun
    requires Usable(s.tables, id, s.open[t].now)
    requires Free(s, t, SessionRow(id)) && Free(s, t, UserRow(s.tables.sessions[id].user))
    ensures Step(s, Execute(t, 0)) == Some(s1) && Step(s1, Execute(t, 0)) == Some(s2) && Step(s2, Commit(t)) == Some(s3)
    ensures Authenticates(s2, Commit(t), id)
    ensures s3.open == s.open - {t} && s3.clock == s.clock && id in s3.tables.sessions
    ensures
      var now, row := s.open[t].now, s.tables.sessions[id];
      s3.tables.sessions[id] == if now - row.lastSeenAt < TOUCH_INTERVAL_MS then row else Touched(row, now)
    ensures
      var now, row := s.open[t].now, s.tables.sessions[id];
      now - row.lastSeenAt >= TOUCH_INTERVAL_MS && s.clock < now + IDLE_LIFETIME_MS && s.clock < row.absoluteExpiresAt ==>
      Usable(s3.tables, id, s3.clock)
  {
    s1 := OlderRequestIsAccepted(s, t, id);
    s2 := Step(s1, Execute(t, 0)).value;
    s3 := Step(s2, Commit(t)).value;
  }

  lemma OlderRequestIsAccepted(s: State, t: TransactionId, id: SessionId) returns (next: State)
    requires t in s.open && s.open[t].request == Authenticate(id) && s.open[t].stage == Begun
    requires Usable(s.tables, id, s.open[t].now)
    requires Free(s, t, SessionRow(id)) && Free(s, t, UserRow(s.tables.sessions[id].user))
    ensures Step(s, Execute(t, 0)) == Some(next) && next == s.(open := s.open[t := next.open[t]])
    ensures next.open[t] == s.open[t].(stage := Locked, held := next.open[t].held)
  {
    next := Step(s, Execute(t, 0)).value;
  }

  /** The clock is read before the rows are locked, so an expired session can come back: a request of day six that
      waits until day eight renews a session last seen on day one. */
  lemma ExpiredSessionCanReturn() returns (states: seq<State>, actions: seq<Action>)
    ensures IsRun(states, actions) && Quiet(states[0]) && |states| == 6
    ensures 0 in states[2].tables.sessions && !ActiveAt(states[2].tables.sessions[0], states[2].clock)
    ensures Usable(states[5].tables, 0, states[5].clock) && states[5].clock == states[2].clock
  {
    var day := 24 * 60 * 60 * 1_000;
    var tables := Tables(map[0 := None], map[0 := NewSession(0, day)], {0}, []);
    var s0 := State(tables, 6 * day, map[]);
    actions := [Begin(1, Authenticate(0)), Tick(2 * day), Execute(1, 0), Execute(1, 0), Commit(1)];
    var s1 := Step(s0, actions[0]).value;
    var s2 := Step(s1, actions[1]).value;
    assert Invariant(s2) by {
      assert Invariant(s0);
      StepKeepsInvariant(s0, actions[0], s1);
      StepKeepsInvariant(s1, actions[1], s2);
    }
    var s3, s4, s5 := OlderRequestRevives(s2, 1, 0);
    states := [s0, s1, s2, s3, s4, s5];
  }

  /** For the same reason, overlapping requests can reject a live session. Two requests wait, and each alone would
      succeed; when the later one goes first and touches the row, the earlier one finds a touch from its future. */
  lemma OverlappingRequestIsRejected(s: State, early: TransactionId, late: TransactionId, id: SessionId)
    returns (s1: State, s2: State, s3: State, s4: State)
    requires Invariant(s) && early in s.open && late in s.open && early != late
    requires s.open[early] == Started(Authenticate(id), s.open[early].now)
    requires s.open[late].request == Authenticate(id) && s.open[late].stage == Begun
    requires Usable(s.tables, id, s.open[early].now) && Usable(s.tables, id, s.open[late].now)
    requires s.open[early].now < s.open[late].now && s.open[late].now - s.tables.sessions[id].lastSeenAt >= TOUCH_INTERVAL_MS
    requires forall o :: o in s.open ==> s.open[o].held == {}
    ensures Step(s, Execute(late, 0)) == Some(s1) && Step(s1, Execute(late, 0)) == Some(s2) && Step(s2, Commit(late)) == Some(s3)
    ensures Step(s3, Execute(early, 0)) == Some(s4)
    ensures early in s4.open && s4.open[early].stage == Nothing && s4.clock == s.clock
    ensures id in s4.tables.sessions && s4.tables.sessions[id] == Touched(s.tables.sessions[id], s.open[late].now)
  {
    s1, s2, s3 := OlderRequestRevives(s, late, id);
    s4 := Step(s3, Execute(early, 0)).value;
  }

  /** Two such requests are reachable: they only have to begin at different times. */
  lemma OverlappingRequestsHappen(s0: State, id: SessionId, milliseconds: nat) returns (s1: State, s2: State, s3: State)
    requires Quiet(s0)
    ensures Step(s0, Begin(1, Authenticate(id))) == Some(s1) && Step(s1, Tick(milliseconds)) == Some(s2)
    ensures Step(s2, Begin(2, Authenticate(id))) == Some(s3)
    ensures Invariant(s3) && s3.tables == s0.tables
    ensures s3.open == map[1 := Started(Authenticate(id), s0.clock), 2 := Started(Authenticate(id), s0.clock + milliseconds)]
  {
    s1 := Step(s0, Begin(1, Authenticate(id))).value;
    s2 := Step(s1, Tick(milliseconds)).value;
    s3 := Step(s2, Begin(2, Authenticate(id))).value;
    assert s1.open == map[1 := Started(Authenticate(id), s0.clock)];
    assert Invariant(s0);
    StepKeepsInvariant(s0, Begin(1, Authenticate(id)), s1);
    StepKeepsInvariant(s1, Tick(milliseconds), s2);
    StepKeepsInvariant(s2, Begin(2, Authenticate(id)), s3);
  }
}
