/** When an expired session can become usable again: exactly while requests are in flight that can renew it, one after
    the other, beyond the present. */
module SessionRevival {
  import opened Wrappers
  import opened Sessions
  import opened SessionInvariant
  import opened SessionExpiry

  // ----- Requests that wait -----

  /** A request that waited is accepted, though the session was usable when it read the clock, if and only if the session
      was neither revoked nor its user blocked meanwhile, and no later request has touched the row. */
  lemma WaitingRequestIsAccepted(
    states: seq<State>, actions: seq<Action>, j: nat, k: nat, t: TransactionId, newId: SessionId, id: SessionId)
    requires IsRun(states, actions) && Quiet(states[0]) && j <= k < |actions| && actions[k] == Execute(t, newId)
    requires t in states[k].open && states[k].open[t].request == Authenticate(id) && states[k].open[t].stage == Begun
    requires Usable(states[j].tables, id, states[k].open[t].now)
    ensures t in states[k + 1].open && id in states[k].tables.sessions
    ensures
      var row := states[k].tables.sessions[id];
      states[k + 1].open[t].stage == Locked <==>
      row.revokedAt == None && !Blocked(states[k].tables, row.user) && row.lastSeenAt <= states[k].open[t].now
  {
    InvariantHolds(states, actions, k);
    RunOnSession(states, actions, j, k, id);
    assert Step(states[k], actions[k]) == Some(states[k + 1]);
  }

  // ----- Chains of touches -----

  predicate InFlight(s: State, t: TransactionId, id: SessionId) {
    t in s.open && s.open[t].request == Authenticate(id) && s.open[t].stage != Nothing
  }

  /** A request that read this time is accepted, and renews the row. */
  predicate Renews(row: Session, now: int) {
    ActiveAt(row, now) && now - row.lastSeenAt >= TOUCH_INTERVAL_MS
  }

  /** Requests in flight each of which renews the row that the others before it have left. */
  predicate Chain(s: State, id: SessionId, row: Session, ts: seq<TransactionId>)
    decreases |ts|
  {
    ts == []
    || (&& InFlight(s, ts[0], id) && Renews(row, s.open[ts[0]].now)
        && Chain(s, id, Touched(row, s.open[ts[0]].now), ts[1..]))
  }

  function Renewed(s: State, id: SessionId, row: Session, ts: seq<TransactionId>): Session
    requires Chain(s, id, row, ts)
    decreases |ts|
  {
    if ts == [] then row else Renewed(s, id, Touched(row, s.open[ts[0]].now), ts[1..])
  }

  /** Some chain renews the row beyond the present. */
  predicate Reaches(s: State, id: SessionId, row: Session, ts: seq<TransactionId>) {
    Chain(s, id, row, ts) && s.clock < Renewed(s, id, row, ts).idleExpiresAt
  }

  ghost predicate Revivable(s: State, id: SessionId)
    requires id in s.tables.sessions
  {
    s.tables.sessions[id].revokedAt == None && exists ts :: Reaches(s, id, s.tables.sessions[id], ts)
  }

  // ----- What is not revivable stays so -----

  lemma {:induction false} ChainOfFewer(s: State, s': State, id: SessionId, row: Session, ts: seq<TransactionId>)
    requires forall t :: InFlight(s', t, id) ==> InFlight(s, t, id) && s'.open[t].now == s.open[t].now
    requires Chain(s', id, row, ts)
    ensures Chain(s, id, row, ts) && Renewed(s, id, row, ts) == Renewed(s', id, row, ts)
    decreases |ts|
  {
    if ts != [] {
      ChainOfFewer(s, s', id, Touched(row, s.open[ts[0]].now), ts[1..]);
    }
  }

  /** A chain that a request of now belongs to reached beyond the present without it. */
  lemma {:induction false} ChainWithoutNew(
    s: State, s': State, t: TransactionId, id: SessionId, row: Session, ts: seq<TransactionId>)
    returns (us: seq<TransactionId>)
    requires t in s'.open && s'.open[t].now == s.clock == s'.clock && s'.open == s.open[t := s'.open[t]]
    requires Reaches(s', id, row, ts)
    ensures Reaches(s, id, row, us)
    decreases |ts|
  {
    if ts == [] || ts[0] == t {
      us := [];
    } else {
      var rest := ChainWithoutNew(s, s', t, id, Touched(row, s.open[ts[0]].now), ts[1..]);
      us := [ts[0]] + rest;
      assert us[1..] == rest;
    }
  }

  lemma CommitOnRow(t: Tables, clock: int, x: Transaction, id: SessionId)
    requires TablesOk(t, clock) && Knows(t, x) && x.stage in {Done, Nothing} && id in t.sessions
    ensures id in Committed(t, x).sessions
    ensures
      var row, row' := t.sessions[id], Committed(t, x).sessions[id];
      || row' == row || row'.revokedAt.Some?
      || (x.request == Authenticate(id) && x.stage == Done && Renews(row, x.now) && row' == Touched(row, x.now))
  {
  }

  lemma CommitRevivesNothing(s: State, t: TransactionId, s': State, id: SessionId, ts: seq<TransactionId>)
    requires Invariant(s) && Step(s, Commit(t)) == Some(s') && id in s.tables.sessions && id in s'.tables.sessions
    requires s'.tables.sessions[id].revokedAt == None && Reaches(s', id, s'.tables.sessions[id], ts)
    ensures exists us :: Reaches(s, id, s.tables.sessions[id], us)
  {
    var row, row' := s.tables.sessions[id], s'.tables.sessions[id];
    CommitOnRow(s.tables, s.clock, s.open[t], id);
    ChainOfFewer(s, s', id, row', ts);
    if row' == row {
      assert Reaches(s, id, row, ts);
    } else {
      assert ([t] + ts)[1..] == ts;
      assert Reaches(s, id, row, [t] + ts);
    }
  }

  /** One step makes nothing revivable, whatever it is. */
  lemma StepRevivesNothing(s: State, a: Action, s': State, id: SessionId)
    requires Invariant(s) && Step(s, a) == Some(s') && id in s.tables.sessions && id in s'.tables.sessions
    requires Revivable(s', id)
    ensures Revivable(s, id)
  {
    var row := s.tables.sessions[id];
    StepOnSession(s, a, s', id);
    var ts :| Reaches(s', id, s'.tables.sessions[id], ts);
    match a
    case Begin(t, _) =>
      var us := ChainWithoutNew(s, s', t, id, row, ts);
    case Commit(t) => CommitRevivesNothing(s, t, s', id, ts);
    case _ =>
      NothingNewInFlight(s, a, s', id);
      ChainOfFewer(s, s', id, row, ts);
      assert Reaches(s, id, row, ts);
  }

  lemma NothingNewInFlight(s: State, a: Action, s': State, id: SessionId)
    requires Step(s, a) == Some(s') && !a.Begin? && !a.Commit?
    ensures forall t :: InFlight(s', t, id) ==> InFlight(s, t, id) && s'.open[t].now == s.open[t].now
    ensures s'.clock >= s.clock && s'.tables.sessions == s.tables.sessions
  {
    if a.Execute? && Statement(s, a.t, a.newId).Go? {
      StatementKeepsRequest(s, a.t, a.newId, Statement(s, a.t, a.newId).next);
    }
  }

  lemma StatementKeepsRequest(s: State, t: TransactionId, newId: SessionId, y: Transaction)
    requires t in s.open && Statement(s, t, newId) == Go(y)
    ensures y.request == s.open[t].request && y.now == s.open[t].now && s.open[t].stage != Nothing && y.stage != Begun
  {
  }

  lemma {:induction false} RunRevivesNothing(states: seq<State>, actions: seq<Action>, k: nat, id: SessionId)
    requires IsRun(states, actions) && k < |states| && Invariant(states[0]) && id in states[0].tables.sessions
    ensures Invariant(states[k]) && id in states[k].tables.sessions
    ensures Revivable(states[k], id) ==> Revivable(states[0], id)
    decreases k
  {
    if k > 0 {
      RunRevivesNothing(states, actions, k - 1, id);
      assert Step(states[k - 1], actions[k - 1]) == Some(states[k]);
      StepKeepsInvariant(states[k - 1], actions[k - 1], states[k]);
      StepOnSession(states[k - 1], actions[k - 1], states[k], id);
      if Revivable(states[k], id) {
        StepRevivesNothing(states[k - 1], actions[k - 1], states[k], id);
      }
    }
  }

  lemma UsableIsRevivable(s: State, id: SessionId)
    requires Usable(s.tables, id, s.clock)
    ensures Revivable(s, id)
  {
    assert Reaches(s, id, s.tables.sessions[id], []);
  }

  // ----- What is revivable can be revived -----

  /** Transactions that have executed nothing hold no lock. */
  ghost predicate Orderly(s: State) {
    Invariant(s) && forall t :: t in s.open && s.open[t].stage == Begun ==> s.open[t].held == {}
  }

  lemma StepKeepsOrderly(s: State, a: Action, s': State)
    requires Orderly(s) && Step(s, a) == Some(s')
    ensures Orderly(s')
  {
    StepKeepsInvariant(s, a, s');
    if a.Execute? && Statement(s, a.t, a.newId).Go? {
      StatementKeepsRequest(s, a.t, a.newId, Statement(s, a.t, a.newId).next);
    }
  }

  lemma {:induction false} OrderlyHolds(states: seq<State>, actions: seq<Action>, k: nat)
    requires IsRun(states, actions) && k < |states| && Quiet(states[0])
    ensures Orderly(states[k])
    decreases k
  {
    if k > 0 {
      OrderlyHolds(states, actions, k - 1);
      StepKeepsOrderly(states[k - 1], actions[k - 1], states[k]);
    }
  }

  lemma StepThenRun(s: State, a: Action, later: seq<State>, more: seq<Action>)
    requires IsRun(later, more) && Step(s, a) == Some(later[0])
    ensures IsRun([s] + later, [a] + more)
  {
    forall k | 0 <= k < |more| + 1
      ensures Step(([s] + later)[k], ([a] + more)[k]) == Some(([s] + later)[k + 1])
    {
      assert k > 0 ==> Step(later[k - 1], more[k - 1]) == Some(later[k]);
    }
  }

  /** Nobody else is in the way of the transaction. */
  ghost predicate Clear(s: State, t: TransactionId) {
    Orderly(s) && t in s.open && forall o :: o in s.open && o != t ==> s.open[o].held == {}
  }

  lemma AbortOne(s: State, o: TransactionId) returns (next: State)
    requires Orderly(s) && o in s.open
    ensures Step(s, Abort(o)) == Some(next) && next == s.(open := s.open - {o}) && Orderly(next)
  {
    next := s.(open := s.open - {o});
    StepKeepsOrderly(s, Abort(o), next);
  }

  lemma {:induction false} AbortHolders(s: State, t: TransactionId) returns (states: seq<State>, actions: seq<Action>)
    requires Orderly(s) && t in s.open
    ensures IsRun(states, actions) && states[0] == s
    ensures
      var last := states[|states| - 1];
      && Clear(last, t) && last.tables == s.tables && last.clock == s.clock
      && forall o :: o in s.open && (o == t || s.open[o].held == {}) ==> o in last.open && last.open[o] == s.open[o]
    decreases s.open.Keys
  {
    if o :| o in s.open && o != t && s.open[o].held != {} {
      var s1 := AbortOne(s, o);
      var later, more := AbortHolders(s1, t);
      StepThenRun(s, Abort(o), later, more);
      states, actions := [s] + later, [Abort(o)] + more;
    } else {
      states, actions := [s], [];
    }
  }

  /** An accepted request, and the statements that it has yet to execute. */
  ghost predicate Renewing(s: State, t: TransactionId, id: SessionId, steps: nat) {
    && Clear(s, t) && InFlight(s, t, id) && id in s.tables.sessions && s.tables.sessions[id].revokedAt == None
    && Renews(s.tables.sessions[id], s.open[t].now)
    && s.open[t].stage == match steps case 0 => Done case 1 => Locked case _ => Begun
  }

  lemma RenewingStep(s: State, t: TransactionId, id: SessionId, steps: nat) returns (next: State)
    requires 0 < steps <= 2 && Renewing(s, t, id, steps)
    ensures Step(s, Execute(t, 0)) == Some(next) && Renewing(next, t, id, steps - 1)
    ensures next.tables == s.tables && next.clock == s.clock && next.open == s.open[t := next.open[t]]
    ensures next.open[t].now == s.open[t].now
  {
    next := Step(s, Execute(t, 0)).value;
    StepKeepsOrderly(s, Execute(t, 0), next);
  }

  /** The request has renewed the row and is gone. */
  ghost predicate HasRenewed(s: State, t: TransactionId, id: SessionId, last: State)
    requires t in s.open && id in s.tables.sessions
  {
    && Orderly(last) && last.open == s.open - {t} && last.clock == s.clock
    && id in last.tables.sessions && last.tables.sessions[id] == Touched(s.tables.sessions[id], s.open[t].now)
  }

  lemma RenewingCommit(s: State, t: TransactionId, id: SessionId) returns (next: State)
    requires Renewing(s, t, id, 0)
    ensures Step(s, Commit(t)) == Some(next) && HasRenewed(s, t, id, next)
  {
    assert Knows(s.tables, s.open[t]);
    next := Step(s, Commit(t)).value;
    StepKeepsOrderly(s, Commit(t), next);
  }

  /** A request that renews the row and meets no lock does so. */
  lemma {:induction false} RequestRenews(s: State, t: TransactionId, id: SessionId, steps: nat)
    returns (states: seq<State>, actions: seq<Action>)
    requires steps <= 2 && Renewing(s, t, id, steps)
    ensures IsRun(states, actions) && states[0] == s && HasRenewed(s, t, id, states[|states| - 1])
    decreases steps
  {
    if steps == 0 {
      var next := RenewingCommit(s, t, id);
      states, actions := [s, next], [Commit(t)];
    } else {
      var next := RenewingStep(s, t, id, steps);
      var later, more := RequestRenews(next, t, id, steps - 1);
      StepThenRun(s, Execute(t, 0), later, more);
      assert next.open - {t} == s.open - {t};
      states, actions := [s] + later, [Execute(t, 0)] + more;
    }
  }

  /** A chain never returns to a request of before. */
  lemma {:induction false} ChainGoesOn(s: State, id: SessionId, row: Session, ts: seq<TransactionId>, t: TransactionId)
    requires Chain(s, id, row, ts) && t in s.open && s.open[t].now <= row.lastSeenAt
    ensures t !in ts
    decreases |ts|
  {
    if ts != [] {
      ChainGoesOn(s, id, Touched(row, s.open[ts[0]].now), ts[1..], t);
    }
  }

  lemma {:induction false} ChainOfRest(s: State, s': State, id: SessionId, row: Session, ts: seq<TransactionId>)
    requires Chain(s, id, row, ts) && forall t :: t in ts ==> t in s'.open && (t in s.open ==> s'.open[t] == s.open[t])
    ensures Chain(s', id, row, ts) && Renewed(s', id, row, ts) == Renewed(s, id, row, ts)
    decreases |ts|
  {
    if ts != [] {
      assert ts[0] in ts;
      ChainOfRest(s, s', id, Touched(row, s.open[ts[0]].now), ts[1..]);
    }
  }

  lemma StepsToGo(s: State, t: TransactionId, id: SessionId) returns (steps: nat)
    requires Clear(s, t) && InFlight(s, t, id) && id in s.tables.sessions && s.tables.sessions[id].revokedAt == None
    requires Renews(s.tables.sessions[id], s.open[t].now)
    ensures steps <= 2 && Renewing(s, t, id, steps)
  {
    assert Knows(s.tables, s.open[t]);
    steps := if s.open[t].stage == Done then 0 else if s.open[t].stage == Locked then 1 else 2;
  }

  /** The requests of a chain whose first alone may hold locks renew the row one after the other. */
  lemma {:induction false} ChainRuns(s: State, id: SessionId, ts: seq<TransactionId>)
    returns (states: seq<State>, actions: seq<Action>)
    requires ts != [] && Clear(s, ts[0]) && id in s.tables.sessions && s.tables.sessions[id].revokedAt == None
    requires Chain(s, id, s.tables.sessions[id], ts)
    ensures IsRun(states, actions) && states[0] == s
    ensures
      var last := states[|states| - 1];
      && Orderly(last) && last.clock == s.clock && id in last.tables.sessions
      && last.tables.sessions[id] == Renewed(s, id, s.tables.sessions[id], ts)
    decreases |ts|
  {
    var t, row := ts[0], s.tables.sessions[id];
    var steps := StepsToGo(s, t, id);
    states, actions := RequestRenews(s, t, id, steps);
    var next, rest := states[|states| - 1], ts[1..];
    var row' := Touched(row, s.open[t].now);
    ChainGoesOn(s, id, row', rest, t);
    ChainInFlight(s, id, row', rest);
    ChainOfRest(s, next, id, row', rest);
    if rest != [] {
      var later, more := ChainRuns(next, id, rest);
      JoinRuns(states, actions, later, more);
      states, actions := states + later[1..], actions + more;
    }
  }

  lemma {:induction false} ChainInFlight(s: State, id: SessionId, row: Session, ts: seq<TransactionId>)
    requires Chain(s, id, row, ts)
    ensures forall t :: t in ts ==> InFlight(s, t, id)
    decreases |ts|
  {
    if ts != [] {
      ChainInFlight(s, id, Touched(row, s.open[ts[0]].now), ts[1..]);
      assert forall t :: t in ts ==> t == ts[0] || t in ts[1..];
    }
  }

  /** Whoever holds the row's lock may come first in the chain: its own renewal counts the same. */
  lemma {:induction false} SkipToHolder(s: State, id: SessionId, row: Session, ts: seq<TransactionId>)
    returns (us: seq<TransactionId>)
    requires ts != [] && Chain(s, id, row, ts)
    requires row.authenticatedAt <= row.lastSeenAt
    requires row.idleExpiresAt == Minimum(row.lastSeenAt + IDLE_LIFETIME_MS, row.absoluteExpiresAt)
    requires forall t :: InFlight(s, t, id) && s.open[t].stage != Begun ==> s.open[t].now < row.idleExpiresAt
    ensures us != [] && Chain(s, id, row, us) && Renewed(s, id, row, us) == Renewed(s, id, row, ts)
    ensures forall k :: 0 < k < |us| ==> us[k] in s.open && s.open[us[k]].stage == Begun
    decreases |ts|
  {
    if |ts| == 1 {
      us := ts;
    } else {
      var rest := SkipToHolder(s, id, Touched(row, s.open[ts[0]].now), ts[1..]);
      if s.open[rest[0]].stage == Begun {
        us := [ts[0]] + rest;
        assert us[1..] == rest;
      } else {
        us := rest;
      }
    }
  }

  // ----- The exact condition -----

  /** In some run from here the session is usable at the time of its last state if and only if it is not revoked and some
      requests in flight, one after the other, renew it beyond the present. */
  lemma RevivalIsExact(s: State, id: SessionId)
    requires Orderly(s) && id in s.tables.sessions
    ensures
      (exists states: seq<State>, actions: seq<Action> ::
         IsRun(states, actions) && states[0] == s && Usable(states[|states| - 1].tables, id, states[|states| - 1].clock))
      <==> Revivable(s, id)
  {
    if Revivable(s, id) {
      var states, actions := Revive(s, id);
      assert IsRun(states, actions) && states[0] == s;
    }
    forall states: seq<State>, actions: seq<Action> |
      IsRun(states, actions) && states[0] == s && Usable(states[|states| - 1].tables, id, states[|states| - 1].clock)
      ensures Revivable(s, id)
    {
      UsableIsRevivable(states[|states| - 1], id);
      RunRevivesNothing(states, actions, |states| - 1, id);
    }
  }

  lemma HoldersAreInTime(s: State, id: SessionId)
    requires Invariant(s) && id in s.tables.sessions
    ensures
      forall t :: InFlight(s, t, id) && s.open[t].stage != Begun ==> s.open[t].now < s.tables.sessions[id].idleExpiresAt
  {
    assert forall t :: InFlight(s, t, id) && s.open[t].stage != Begun ==> Knows(s.tables, s.open[t]);
  }

  lemma Revive(s: State, id: SessionId) returns (states: seq<State>, actions: seq<Action>)
    requires Orderly(s) && id in s.tables.sessions && Revivable(s, id)
    ensures IsRun(states, actions) && states[0] == s
    ensures Usable(states[|states| - 1].tables, id, states[|states| - 1].clock)
  {
    var row := s.tables.sessions[id];
    var ts :| Reaches(s, id, row, ts);
    if ts == [] {
      states, actions := [s], [];
    } else {
      HoldersAreInTime(s, id);
      var us := SkipToHolder(s, id, row, ts);
      ChainInFlight(s, id, row, us);
      states, actions := ClearAndRun(s, id, us);
      RenewedBounds(s, id, row, us);
    }
    LiveIsUsable(states[|states| - 1], id);
  }

  lemma ClearAndRun(s: State, id: SessionId, us: seq<TransactionId>) returns (states: seq<State>, actions: seq<Action>)
    requires Orderly(s) && id in s.tables.sessions && s.tables.sessions[id].revokedAt == None && us != []
    requires Chain(s, id, s.tables.sessions[id], us) && forall t :: t in us ==> InFlight(s, t, id)
    requires forall k :: 0 < k < |us| ==> us[k] in s.open && s.open[us[k]].stage == Begun
    ensures IsRun(states, actions) && states[0] == s
    ensures
      var last := states[|states| - 1];
      && Orderly(last) && last.clock == s.clock && id in last.tables.sessions
      && last.tables.sessions[id] == Renewed(s, id, s.tables.sessions[id], us)
  {
    var row := s.tables.sessions[id];
    var first, a := AbortHolders(s, us[0]);
    var clear := first[|first| - 1];
    ChainOfRest(s, clear, id, row, us);
    var second, b := ChainRuns(clear, id, us);
    JoinRuns(first, a, second, b);
    states, actions := first + second[1..], a + b;
  }

  lemma LiveIsUsable(s: State, id: SessionId)
    requires Invariant(s) && id in s.tables.sessions && s.tables.sessions[id].revokedAt == None
    requires s.clock < s.tables.sessions[id].idleExpiresAt
    ensures Usable(s.tables, id, s.clock)
  {
  }

  lemma {:induction false} RenewedBounds(s: State, id: SessionId, row: Session, ts: seq<TransactionId>)
    requires Chain(s, id, row, ts)
    ensures Renewed(s, id, row, ts).revokedAt == row.revokedAt && Renewed(s, id, row, ts).user == row.user
    decreases |ts|
  {
    if ts != [] {
      RenewedBounds(s, id, Touched(row, s.open[ts[0]].now), ts[1..]);
    }
  }

  // ----- One request need not be enough -----

  /** A request in flight that alone renews the row beyond the present. */
  predicate RevivesAlone(s: State, id: SessionId, t: TransactionId) {
    && Exposes(s, t, id) && s.open[t].now - s.tables.sessions[id].lastSeenAt >= TOUCH_INTERVAL_MS
    && s.clock < s.open[t].now + IDLE_LIFETIME_MS && s.clock < s.tables.sessions[id].absoluteExpiresAt
  }

  /** One such request is enough. */
  lemma OneRequestIsEnough(s: State, id: SessionId, t: TransactionId)
    requires RevivesAlone(s, id, t)
    ensures Revivable(s, id)
  {
    var row, now := s.tables.sessions[id], s.open[t].now;
    assert Chain(s, id, Touched(row, now), [t][1..]);
    assert Reaches(s, id, row, [t]);
  }

  /** But two can do what none does alone: requests of day six and day twelve wait until day fourteen. The first renews
      the session to day thirteen, and only then the second one is accepted. */
  lemma RevivalMayTakeTwoRequests() returns (states: seq<State>, actions: seq<Action>)
    ensures IsRun(states, actions) && Quiet(states[0]) && |actions| == 4
    ensures 0 in states[4].tables.sessions && !ActiveAt(states[4].tables.sessions[0], states[4].clock)
    ensures Revivable(states[4], 0) && forall t :: !RevivesAlone(states[4], 0, t)
  {
    var day := 24 * 60 * 60 * 1_000;
    var s0 := State(Tables(map[0 := None], map[0 := NewSession(0, 0)], {0}, []), 6 * day, map[]);
    actions := [Begin(1, Authenticate(0)), Tick(6 * day), Begin(2, Authenticate(0)), Tick(2 * day)];
    var s1 := Step(s0, actions[0]).value;
    var s2 := Step(s1, actions[1]).value;
    var s3 := Step(s2, actions[2]).value;
    var s4 := Step(s3, actions[3]).value;
    states := [s0, s1, s2, s3, s4];
    var row := NewSession(0, 0);
    assert [1, 2][1..] == [2] && [2][1..] == [];
    var once := Touched(row, 6 * day);
    assert Chain(s4, 0, Touched(once, 12 * day), []);
    assert Chain(s4, 0, once, [2]);
    assert Reaches(s4, 0, row, [1, 2]);
  }
}
