/** Login attempts: bounded cleanup, creation and consumption as interleaved transactions, one locked row at a time.
    A cookie stands for its digest and for the expiry of the attempt that it opens to, if it opens at all. */
module OAuthAttempts {
  import opened Wrappers

  type Digest = nat
  type TransactionId = nat

  const ATTEMPT_LIFETIME_MS := 5 * 60 * 1_000
  const CLEANUP_LIMIT := 128

  datatype Attempt = Attempt(expiresAt: int, consumedAt: Option<int>)

  datatype Cookie = Cookie(digest: Digest, sealed: Option<int>)

  /** A committed consumption: what the caller presented, and the expiry of each row that it marked. */
  datatype Consumption = Consumption(cookies: seq<Cookie>, now: int, marked: map<Digest, int>)

  /** `issued` maps every digest ever committed to its expiry. */
  datatype Tables = Tables(attempts: map<Digest, Attempt>, issued: map<Digest, int>, log: seq<Consumption>)

  /** `versions` holds the row versions that a cleanup selected, and `unvisited` the rows that a statement has yet to
      come to. A consumption remembers which digests were `issued` when its request arrived, for the specification only. */
  datatype Transaction =
    | Starting(
        digest: Digest, now: int, selected: bool, versions: map<Digest, Attempt>, unvisited: set<Digest>,
        deleted: set<Digest>, inserted: bool)
    | Consuming(cookies: seq<Cookie>, now: int, issued: set<Digest>, unvisited: set<Digest>, marked: map<Digest, int>)

  /** `drawn` holds every digest of a random cookie; a digest is never drawn twice. */
  datatype State = State(tables: Tables, clock: int, drawn: set<Digest>, open: map<TransactionId, Transaction>)

  // ----- Answers -----

  function Open(cookie: Cookie, now: int): Option<int> {
    if cookie.sealed.Some? && cookie.sealed.value > now then cookie.sealed else None
  }

  function Answer(c: Consumption, cookie: Cookie): Option<int> {
    if cookie.digest !in c.marked then None
    else if Open(cookie, c.now) == Some(c.marked[cookie.digest]) then Open(cookie, c.now)
    else None
  }

  // ----- Statements -----

  function Expired(attempts: map<Digest, Attempt>, now: int): set<Digest> {
    set d | d in attempts && attempts[d].expiresAt <= now
  }

  /** The oldest expired rows, as many as the limit allows; the choice among equals is open. */
  predicate OldestExpired(attempts: map<Digest, Attempt>, now: int, ids: set<Digest>) {
    && ids <= Expired(attempts, now)
    && |ids| == (if |Expired(attempts, now)| <= CLEANUP_LIMIT then |Expired(attempts, now)| else CLEANUP_LIMIT)
    && (forall d, e :: d in ids && e in Expired(attempts, now) && e !in ids ==> attempts[d].expiresAt <= attempts[e].expiresAt)
  }

  function Held(x: Transaction): set<Digest> {
    match x
    case Starting(_, _, _, _, _, deleted, _) => deleted
    case Consuming(_, _, _, _, marked) => marked.Keys
  }

  predicate Free(s: State, t: TransactionId, d: Digest) {
    forall o :: o in s.open && o != t ==> d !in Held(s.open[o])
  }

  function Versions(attempts: map<Digest, Attempt>, ids: set<Digest>): map<Digest, Attempt>
    requires ids <= attempts.Keys
  {
    map d | d in ids :: attempts[d]
  }

  /** Deletes a selected row version; a row that changed or vanished since the selection is left alone. */
  function AfterDelete(attempts: map<Digest, Attempt>, x: Transaction, d: Digest): Transaction
    requires x.Starting? && d in x.versions
  {
    var same := d in attempts && attempts[d] == x.versions[d];
    x.(unvisited := x.unvisited - {d}, deleted := if same then x.deleted + {d} else x.deleted)
  }

  predicate Usable(attempts: map<Digest, Attempt>, d: Digest, now: int) {
    d in attempts && attempts[d].expiresAt > now && attempts[d].consumedAt.None?
  }

  function AfterMark(attempts: map<Digest, Attempt>, x: Transaction, d: Digest): Transaction
    requires x.Consuming?
  {
    x.(unvisited := x.unvisited - {d}, marked := if Usable(attempts, d, x.now) then x.marked[d := attempts[d].expiresAt] else x.marked)
  }

  // ----- The machine -----

  function Committed(t: Tables, x: Transaction): Tables {
    match x
    case Starting(digest, now, _, _, _, deleted, _) =>
      var expiresAt := now + ATTEMPT_LIFETIME_MS;
      t.(attempts := (t.attempts - deleted)[digest := Attempt(expiresAt, None)], issued := t.issued[digest := expiresAt])
    case Consuming(cookies, now, _, _, marked) =>
      t.(attempts :=
           map d | d in t.attempts :: if d in marked then t.attempts[d].(consumedAt := Some(now)) else t.attempts[d],
         log := t.log + [Consumption(cookies, now, marked)])
  }

  predicate Complete(x: Transaction) {
    match x
    case Starting(_, _, _, _, _, _, inserted) => inserted
    case Consuming(_, _, _, unvisited, _) => unvisited == {}
  }

  datatype Action =
    | Tick(milliseconds: nat)
    | BeginStart(t: TransactionId, digest: Digest)
    | BeginConsume(t: TransactionId, cookies: seq<Cookie>)
    | Select(t: TransactionId, ids: set<Digest>)
    | Delete(t: TransactionId, d: Digest)
    | Insert(t: TransactionId)
    | Mark(t: TransactionId, d: Digest)
    | Commit(t: TransactionId)
    | Abort(t: TransactionId)

  function Digests(cookies: seq<Cookie>): set<Digest> {
    set c | c in cookies :: c.digest
  }

  function Step(s: State, a: Action): Option<State> {
    match a
    case Tick(milliseconds) => Some(s.(clock := s.clock + milliseconds))
    case BeginStart(t, digest) =>
      if t in s.open || digest in s.drawn then None
      else Some(s.(drawn := s.drawn + {digest}, open := s.open[t := Starting(digest, s.clock, false, map[], {}, {}, false)]))
    case BeginConsume(t, cookies) =>
      if t in s.open then None else Some(s.(open := s.open[t := Consuming(cookies, s.clock, s.tables.issued.Keys, Digests(cookies), map[])]))
    case Select(t, ids) =>
      if t !in s.open || !s.open[t].Starting? || s.open[t].selected then None
      else if !OldestExpired(s.tables.attempts, s.open[t].now, ids) then None
      else Some(s.(open := s.open[t := s.open[t].(selected := true, versions := Versions(s.tables.attempts, ids), unvisited := ids)]))
    case Delete(t, d) =>
      if t !in s.open || !s.open[t].Starting? || d !in s.open[t].unvisited || d !in s.open[t].versions || !Free(s, t, d) then None
      else Some(s.(open := s.open[t := AfterDelete(s.tables.attempts, s.open[t], d)]))
    case Insert(t) =>
      if t !in s.open || !s.open[t].Starting? || !s.open[t].selected || s.open[t].unvisited != {} then None
      else Some(s.(open := s.open[t := s.open[t].(inserted := true)]))
    case Mark(t, d) =>
      if t !in s.open || !s.open[t].Consuming? || d !in s.open[t].unvisited || !Free(s, t, d) then None
      else Some(s.(open := s.open[t := AfterMark(s.tables.attempts, s.open[t], d)]))
    case Commit(t) =>
      if t !in s.open || !Complete(s.open[t]) then None
      else Some(s.(tables := Committed(s.tables, s.open[t]), open := s.open - {t}))
    case Abort(t) => if t in s.open then Some(s.(open := s.open - {t})) else None
  }

  ghost predicate IsRun(states: seq<State>, actions: seq<Action>) {
    && |states| == |actions| + 1
    && forall k :: 0 <= k < |actions| ==> Step(states[k], actions[k]) == Some(states[k + 1])
  }

  // ----- The invariant -----

  ghost predicate TablesOk(t: Tables, clock: int) {
    && t.attempts.Keys <= t.issued.Keys
    && (forall d :: d in t.attempts ==> t.attempts[d].expiresAt == t.issued[d])
    && (forall d :: d in t.issued && d !in t.attempts ==> t.issued[d] <= clock)
  }

  predicate MarkedIn(log: seq<Consumption>, d: Digest) {
    exists k :: 0 <= k < |log| && d in log[k].marked
  }

  ghost predicate MarksAreOfIssued(log: seq<Consumption>, issued: map<Digest, int>) {
    forall k, d :: 0 <= k < |log| && d in log[k].marked ==> d in issued && log[k].now < log[k].marked[d] == issued[d]
  }

  ghost predicate MarkedOnce(log: seq<Consumption>) {
    forall i, j, d :: 0 <= i < j < |log| && d in log[i].marked ==> d !in log[j].marked
  }

  ghost predicate LogOk(t: Tables) {
    && MarksAreOfIssued(t.log, t.issued)
    && (forall d :: d in t.attempts ==> (t.attempts[d].consumedAt.Some? <==> MarkedIn(t.log, d)))
    && MarkedOnce(t.log)
  }

  /** The version that a cleanup selected is still the current one. */
  predicate Stands(t: Tables, x: Transaction, d: Digest)
    requires x.Starting?
  {
    d in x.versions && d in t.attempts && t.attempts[d] == x.versions[d]
  }

  ghost predicate StartKnows(t: Tables, x: Transaction)
    requires x.Starting?
  {
    && x.digest !in t.issued
    && (!x.selected ==> x.versions == map[] && x.deleted == {} && !x.inserted)
    && (x.inserted ==> x.unvisited == {})
    && x.unvisited <= x.versions.Keys && x.deleted <= x.versions.Keys - x.unvisited
    && |x.versions.Keys| <= CLEANUP_LIMIT
    && (forall d :: d in x.versions ==> d in t.issued && x.versions[d].expiresAt == t.issued[d] <= x.now)
    && (forall d :: d in x.versions && d in t.attempts && x.versions[d].consumedAt.Some? ==> t.attempts[d] == x.versions[d])
    && (forall d :: d in x.versions && d !in x.unvisited ==> (d in x.deleted <==> Stands(t, x, d)))
  }

  ghost predicate ConsumeKnows(t: Tables, x: Transaction)
    requires x.Consuming?
  {
    && x.unvisited <= Digests(x.cookies)
    && x.issued <= t.issued.Keys
    && (forall d :: d in x.marked ==>
          d in Digests(x.cookies) && Usable(t.attempts, d, x.now) && t.attempts[d].expiresAt == x.marked[d])
    && (forall d :: d in Digests(x.cookies) && d in x.issued && d !in x.unvisited ==>
          (d in x.marked <==> Usable(t.attempts, d, x.now)))
  }

  ghost predicate Knows(t: Tables, x: Transaction) {
    match x
    case Starting(_, _, _, _, _, _, _) => StartKnows(t, x)
    case Consuming(_, _, _, _, _) => ConsumeKnows(t, x)
  }

  ghost predicate Compatible(x: Transaction, y: Transaction) {
    Held(x) !! Held(y) && (x.Starting? && y.Starting? ==> x.digest != y.digest)
  }

  ghost predicate Invariant(s: State) {
    && TablesOk(s.tables, s.clock)
    && LogOk(s.tables)
    && s.tables.issued.Keys <= s.drawn
    && (forall t :: t in s.open ==> Knows(s.tables, s.open[t]) && s.open[t].now <= s.clock)
    && (forall t :: t in s.open && s.open[t].Starting? ==> s.open[t].digest in s.drawn)
    && (forall t, o :: t in s.open && o in s.open && t != o ==> Compatible(s.open[t], s.open[o]))
  }

  lemma StartKeepsTables(t: Tables, clock: int, x: Transaction)
    requires x.Starting? && TablesOk(t, clock) && Knows(t, x) && x.now <= clock
    ensures TablesOk(Committed(t, x), clock)
  {
    assert forall d :: d in x.deleted ==> d in x.versions;
  }

  lemma MoreIssued(log: seq<Consumption>, issued: map<Digest, int>, digest: Digest, expiresAt: int)
    requires MarksAreOfIssued(log, issued) && digest !in issued
    ensures MarksAreOfIssued(log, issued[digest := expiresAt]) && !MarkedIn(log, digest)
  {
  }

  lemma StartKeepsLog(t: Tables, clock: int, x: Transaction)
    requires x.Starting? && TablesOk(t, clock) && LogOk(t) && Knows(t, x)
    ensures LogOk(Committed(t, x))
  {
    MoreIssued(t.log, t.issued, x.digest, x.now + ATTEMPT_LIFETIME_MS);
    assert forall d :: d in Committed(t, x).attempts && d != x.digest ==>
      d in t.attempts && Committed(t, x).attempts[d] == t.attempts[d];
  }

  lemma StartCommits(t: Tables, clock: int, x: Transaction)
    requires x.Starting? && TablesOk(t, clock) && LogOk(t) && Knows(t, x) && x.now <= clock
    ensures TablesOk(Committed(t, x), clock) && LogOk(Committed(t, x))
  {
    StartKeepsTables(t, clock, x);
    StartKeepsLog(t, clock, x);
  }

  /** What a consumption marks is unmarked so far, and was issued. */
  ghost predicate MarksUsable(t: Tables, c: Consumption) {
    forall d :: d in c.marked ==> Usable(t.attempts, d, c.now) && t.attempts[d].expiresAt == c.marked[d]
  }

  lemma MarkedAreIssued(t: Tables, clock: int, c: Consumption)
    requires TablesOk(t, clock) && LogOk(t) && MarksUsable(t, c)
    ensures MarksAreOfIssued(t.log + [c], t.issued)
  {
    var all := t.log + [c];
    forall k, d | 0 <= k < |all| && d in all[k].marked
      ensures d in t.issued && all[k].now < all[k].marked[d] == t.issued[d]
    {
      assert all[k] == if k < |t.log| then t.log[k] else c;
    }
  }

  lemma MarkedAreFresh(t: Tables, c: Consumption)
    requires LogOk(t) && MarksUsable(t, c)
    ensures MarkedOnce(t.log + [c])
  {
    var all := t.log + [c];
    forall i, j, d | 0 <= i < j < |all| && d in all[i].marked
      ensures d !in all[j].marked
    {
      assert all[i] == t.log[i] && MarkedIn(t.log, d);
      assert all[j] == if j < |t.log| then t.log[j] else c;
    }
  }

  lemma ConsumeMarksOnce(t: Tables, clock: int, x: Transaction)
    requires x.Consuming? && TablesOk(t, clock) && LogOk(t) && Knows(t, x)
    ensures MarksAreOfIssued(Committed(t, x).log, t.issued) && MarkedOnce(Committed(t, x).log)
  {
    var c := Consumption(x.cookies, x.now, x.marked);
    assert MarksUsable(t, c) && Committed(t, x).log == t.log + [c];
    MarkedAreIssued(t, clock, c);
    MarkedAreFresh(t, c);
  }

  lemma ConsumeCommits(t: Tables, clock: int, x: Transaction)
    requires x.Consuming? && TablesOk(t, clock) && LogOk(t) && Knows(t, x)
    ensures TablesOk(Committed(t, x), clock) && LogOk(Committed(t, x))
  {
    var t' := Committed(t, x);
    forall d | d in t'.attempts
      ensures t'.attempts[d].consumedAt.Some? <==> MarkedIn(t'.log, d)
    {
      MarkedAppend(t.log, Consumption(x.cookies, x.now, x.marked), d);
    }
    ConsumeMarksOnce(t, clock, x);
  }

  lemma MarkedAppend(log: seq<Consumption>, c: Consumption, d: Digest)
    ensures MarkedIn(log + [c], d) <==> MarkedIn(log, d) || d in c.marked
  {
    assert (log + [c])[|log|] == c;
    if MarkedIn(log, d) {
      var k :| 0 <= k < |log| && d in log[k].marked;
      assert (log + [c])[k] == log[k];
    }
  }

  /** What a commit may do to a row: nothing, unless the transaction holds it; no version ever comes back. */
  ghost predicate Guarantee(t: Tables, t': Tables, x: Transaction, d: Digest) {
    && (d in t.issued ==> d in t'.issued && t'.issued[d] == t.issued[d])
    && (d in t'.issued && d !in t.issued ==> x.Starting? && x.digest == d)
    && (d in t.issued && d !in Held(x) ==> (d in t'.attempts <==> d in t.attempts))
    && (d in t.issued && d in t'.attempts ==> d in t.attempts)
    && (d in t.issued && d in t'.attempts && d !in Held(x) ==> t'.attempts[d] == t.attempts[d])
    && (d in t.issued && d in t'.attempts && t'.attempts[d] != t.attempts[d] ==>
          t.attempts[d].consumedAt.None? && t'.attempts[d].consumedAt.Some?)
  }

  lemma CommitGuarantees(t: Tables, clock: int, x: Transaction, d: Digest)
    requires TablesOk(t, clock) && Knows(t, x)
    ensures Guarantee(t, Committed(t, x), x, d)
  {
  }

  lemma ConsumptionStillKnows(t: Tables, t': Tables, clock: int, x: Transaction, y: Transaction)
    requires TablesOk(t, clock) && (forall d: Digest :: Guarantee(t, t', x, d))
    requires y.Consuming? && Knows(t, y) && Held(x) !! Held(y)
    ensures Knows(t', y)
  {
    assert forall d :: d in t.issued ==> Guarantee(t, t', x, d);
  }

  lemma StartStillKnows(t: Tables, t': Tables, clock: int, x: Transaction, y: Transaction)
    requires TablesOk(t, clock) && (forall d: Digest :: Guarantee(t, t', x, d))
    requires y.Starting? && Knows(t, y) && Compatible(x, y)
    ensures Knows(t', y)
  {
    assert Guarantee(t, t', x, y.digest);
    forall d | d in y.versions
      ensures d in t'.issued && y.versions[d].expiresAt == t'.issued[d]
      ensures d in t'.attempts && y.versions[d].consumedAt.Some? ==> t'.attempts[d] == y.versions[d]
      ensures d !in y.unvisited ==> (d in y.deleted <==> Stands(t', y, d))
    {
      assert Guarantee(t, t', x, d);
    }
  }

  lemma OthersStillKnow(t: Tables, clock: int, x: Transaction, y: Transaction)
    requires TablesOk(t, clock) && Knows(t, x) && Knows(t, y) && Compatible(x, y)
    ensures Knows(Committed(t, x), y)
  {
    var t' := Committed(t, x);
    forall d: Digest
      ensures Guarantee(t, t', x, d)
    {
      CommitGuarantees(t, clock, x, d);
    }
    if y.Starting? {
      StartStillKnows(t, t', clock, x, y);
    } else {
      ConsumptionStillKnows(t, t', clock, x, y);
    }
  }

  lemma DeleteKeeps(t: Tables, x: Transaction, d: Digest)
    requires x.Starting? && Knows(t, x) && d in x.unvisited
    ensures Knows(t, AfterDelete(t.attempts, x, d))
  {
  }

  lemma SelectKeeps(t: Tables, clock: int, x: Transaction, ids: set<Digest>)
    requires x.Starting? && TablesOk(t, clock) && Knows(t, x) && !x.selected && ids <= Expired(t.attempts, x.now) && |ids| <= CLEANUP_LIMIT
    ensures Knows(t, x.(selected := true, versions := Versions(t.attempts, ids), unvisited := ids))
  {
    assert Versions(t.attempts, ids).Keys == ids;
  }

  lemma MarkKeeps(t: Tables, x: Transaction, d: Digest)
    requires x.Consuming? && Knows(t, x) && d in x.unvisited
    ensures Knows(t, AfterMark(t.attempts, x, d))
  {
  }

  /** A transaction that only changed what it knows itself leaves the invariant in place. */
  lemma ReplaceKeepsInvariant(s: State, t: TransactionId, y: Transaction)
    requires Invariant(s) && t in s.open && Knows(s.tables, y) && y.now == s.open[t].now
    requires y.Starting? == s.open[t].Starting? && (y.Starting? ==> y.digest == s.open[t].digest)
    requires forall d :: d in Held(y) && d !in Held(s.open[t]) ==> Free(s, t, d)
    ensures Invariant(s.(open := s.open[t := y]))
  {
    forall o | o in s.open && o != t
      ensures Compatible(y, s.open[o]) && Compatible(s.open[o], y)
    {
      assert Compatible(s.open[t], s.open[o]);
    }
  }

  lemma BeginKeepsInvariant(s: State, drawn: set<Digest>, t: TransactionId, y: Transaction)
    requires Invariant(s) && t !in s.open && Knows(s.tables, y) && y.now == s.clock && Held(y) == {}
    requires s.drawn <= drawn && (y.Starting? ==> y.digest in drawn && y.digest !in s.drawn)
    ensures Invariant(s.(drawn := drawn, open := s.open[t := y]))
  {
    forall o | o in s.open
      ensures Compatible(y, s.open[o]) && Compatible(s.open[o], y)
    {
    }
  }

  lemma CommitKeepsInvariant(s: State, t: TransactionId)
    requires Invariant(s) && t in s.open && Complete(s.open[t])
    ensures Invariant(s.(tables := Committed(s.tables, s.open[t]), open := s.open - {t}))
  {
    var x := s.open[t];
    if x.Starting? {
      StartCommits(s.tables, s.clock, x);
    } else {
      ConsumeCommits(s.tables, s.clock, x);
    }
    forall o | o in s.open && o != t
      ensures Knows(Committed(s.tables, x), s.open[o])
    {
      OthersStillKnow(s.tables, s.clock, x, s.open[o]);
    }
  }

  lemma SelectKeepsInvariant(s: State, t: TransactionId, ids: set<Digest>, s': State)
    requires Invariant(s) && Step(s, Select(t, ids)) == Some(s')
    ensures Invariant(s')
  {
    SelectKeeps(s.tables, s.clock, s.open[t], ids);
    ReplaceKeepsInvariant(s, t, s'.open[t]);
  }

  lemma DeleteKeepsInvariant(s: State, t: TransactionId, d: Digest, s': State)
    requires Invariant(s) && Step(s, Delete(t, d)) == Some(s')
    ensures Invariant(s')
  {
    DeleteKeeps(s.tables, s.open[t], d);
    ReplaceKeepsInvariant(s, t, s'.open[t]);
  }

  lemma InsertKeepsInvariant(s: State, t: TransactionId, s': State)
    requires Invariant(s) && Step(s, Insert(t)) == Some(s')
    ensures Invariant(s')
  {
    ReplaceKeepsInvariant(s, t, s'.open[t]);
  }

  lemma MarkKeepsInvariant(s: State, t: TransactionId, d: Digest, s': State)
    requires Invariant(s) && Step(s, Mark(t, d)) == Some(s')
    ensures Invariant(s')
  {
    MarkKeeps(s.tables, s.open[t], d);
    ReplaceKeepsInvariant(s, t, s'.open[t]);
  }

  /** Every action keeps the invariant. */
  lemma StepKeepsInvariant(s: State, a: Action, s': State)
    requires Invariant(s) && Step(s, a) == Some(s')
    ensures Invariant(s')
  {
    match a
    case BeginStart(t, digest) => BeginKeepsInvariant(s, s'.drawn, t, s'.open[t]);
    case BeginConsume(t, cookies) => BeginKeepsInvariant(s, s'.drawn, t, s'.open[t]);
    case Commit(t) => CommitKeepsInvariant(s, t);
    case Select(t, ids) => SelectKeepsInvariant(s, t, ids, s');
    case Delete(t, d) => DeleteKeepsInvariant(s, t, d, s');
    case Insert(t) => InsertKeepsInvariant(s, t, s');
    case Mark(t, d) => MarkKeepsInvariant(s, t, d, s');
    case _ =>
  }

  /** No open transaction, and no login attempt yet. */
  predicate Empty(s: State) {
    s.tables == Tables(map[], map[], []) && s.open == map[]
  }

  lemma {:induction false} InvariantHolds(states: seq<State>, actions: seq<Action>, k: nat)
    requires IsRun(states, actions) && k < |states| && Empty(states[0])
    ensures Invariant(states[k])
    decreases k
  {
    if k > 0 {
      InvariantHolds(states, actions, k - 1);
      StepKeepsInvariant(states[k - 1], actions[k - 1], states[k]);
    }
  }

  // ----- Attempts are single use -----

  /** The cookie at a position carries the digest and opens to the expiry that the attempt was issued with. */
  predicate Opens(t: Tables, c: Consumption, p: nat, d: Digest)
    requires p < |c.cookies|
  {
    c.cookies[p].digest == d && d in t.issued && c.cookies[p].sealed == Some(t.issued[d])
  }

  predicate AnsweredAt(c: Consumption, p: nat, d: Digest)
    requires p < |c.cookies|
  {
    c.cookies[p].digest == d && Answer(c, c.cookies[p]).Some?
  }

  /** In every run, no attempt is returned by two consumptions. */
  lemma AttemptsAreSingleUse(states: seq<State>, actions: seq<Action>, k: nat, i: nat, p: nat, j: nat, q: nat, d: Digest)
    requires IsRun(states, actions) && k < |states| && Empty(states[0])
    requires i < |states[k].tables.log| && p < |states[k].tables.log[i].cookies| && AnsweredAt(states[k].tables.log[i], p, d)
    requires j < |states[k].tables.log| && q < |states[k].tables.log[j].cookies| && AnsweredAt(states[k].tables.log[j], q, d)
    ensures i == j
  {
    InvariantHolds(states, actions, k);
  }

  /** In every reachable state a logged call has answered a position for an attempt exactly if the call consumed the
      attempt and the cookie there opens to the expiry that the attempt was issued with. */
  lemma AnswersAreExact(states: seq<State>, actions: seq<Action>, k: nat, i: nat, p: nat, d: Digest)
    requires IsRun(states, actions) && k < |states| && Empty(states[0])
    requires i < |states[k].tables.log| && p < |states[k].tables.log[i].cookies|
    ensures
      var c := states[k].tables.log[i];
      AnsweredAt(c, p, d) <==> d in c.marked && Opens(states[k].tables, c, p, d)
  {
    InvariantHolds(states, actions, k);
  }

  /** Within one call, an attempt that it consumes is answered at most once if and only if at most one of the presented
      cookies carries its digest and opens to its expiry: the answers are not made distinct. */
  lemma AnsweredOnceUnlessRepeated(states: seq<State>, actions: seq<Action>, k: nat, i: nat, d: Digest)
    requires IsRun(states, actions) && k < |states| && Empty(states[0])
    requires i < |states[k].tables.log| && d in states[k].tables.log[i].marked
    ensures
      var t, c := states[k].tables, states[k].tables.log[i];
      (forall p, q :: 0 <= p < |c.cookies| && 0 <= q < |c.cookies| && AnsweredAt(c, p, d) && AnsweredAt(c, q, d) ==> p == q) <==>
      (forall p, q :: 0 <= p < |c.cookies| && 0 <= q < |c.cookies| && Opens(t, c, p, d) && Opens(t, c, q, d) ==> p == q)
  {
    var t, c := states[k].tables, states[k].tables.log[i];
    forall p | 0 <= p < |c.cookies|
      ensures AnsweredAt(c, p, d) <==> Opens(t, c, p, d)
    {
      AnswersAreExact(states, actions, k, i, p, d);
    }
  }

  /** A run from the start in which one call, given the same cookie twice, answers it twice. */
  lemma RepeatedCookieIsAnsweredTwice() returns (states: seq<State>, actions: seq<Action>, ck: Cookie)
    ensures IsRun(states, actions) && Empty(states[0]) && |actions| == 7
    ensures actions[4] == BeginConsume(2, [ck, ck]) && actions[6] == Commit(2)
    ensures |states[7].tables.log| == 1
    ensures
      var c := states[7].tables.log[0];
      c.cookies == [ck, ck] && AnsweredAt(c, 0, ck.digest) && AnsweredAt(c, 1, ck.digest)
  {
    ck := Cookie(0, Some(ATTEMPT_LIFETIME_MS));
    var s0 := State(Tables(map[], map[], []), 0, {}, map[]);
    var first, a := StartAlone(s0);
    var second, b := ConsumeTwice(first[4], ck);
    states, actions := first + second[1..], a + b;
  }

  lemma StartAlone(s: State) returns (states: seq<State>, actions: seq<Action>)
    requires s == State(Tables(map[], map[], []), 0, {}, map[])
    ensures IsRun(states, actions) && |actions| == 4 && states[0] == s
    ensures
      states[4] ==
      State(Tables(map[0 := Attempt(ATTEMPT_LIFETIME_MS, None)], map[0 := ATTEMPT_LIFETIME_MS], []), 0, {0}, map[])
  {
    actions := [BeginStart(1, 0), Select(1, {}), Insert(1), Commit(1)];
    assert Expired(s.tables.attempts, 0) == {};
    var s1 := Step(s, actions[0]).value;
    var s2 := Step(s1, actions[1]).value;
    var s3 := Step(s2, actions[2]).value;
    var s4 := Step(s3, actions[3]).value;
    assert s4.tables.attempts == map[0 := Attempt(ATTEMPT_LIFETIME_MS, None)];
    states := [s, s1, s2, s3, s4];
  }

  lemma ConsumeTwice(s: State, ck: Cookie) returns (states: seq<State>, actions: seq<Action>)
    requires ck == Cookie(0, Some(ATTEMPT_LIFETIME_MS))
    requires s.tables.attempts == map[0 := Attempt(ATTEMPT_LIFETIME_MS, None)] && s.tables.log == [] && s.clock == 0 && s.open == map[]
    ensures IsRun(states, actions) && states[0] == s && actions == [BeginConsume(2, [ck, ck]), Mark(2, 0), Commit(2)]
    ensures states[3].tables.log == [Consumption([ck, ck], 0, map[0 := ATTEMPT_LIFETIME_MS])]
  {
    actions := [BeginConsume(2, [ck, ck]), Mark(2, 0), Commit(2)];
    assert ck in [ck, ck];
    assert Digests([ck, ck]) == {0};
    var s1 := Step(s, actions[0]).value;
    var s2 := Step(s1, actions[1]).value;
    var s3 := Step(s2, actions[2]).value;
    states := [s, s1, s2, s3];
  }

  // ----- Cleanup is bounded and spares live attempts -----

  /** A row leaves the table only through the commit of a login start. It removes exactly the selected row versions
      that are still current: at most 128 rows, all of them expired when the request read the clock. */
  lemma CleanupIsBounded(s: State, a: Action, s': State)
    requires Invariant(s) && Step(s, a) == Some(s')
    ensures
      var removed := s.tables.attempts.Keys - s'.tables.attempts.Keys;
      if a.Commit? && s.open[a.t].Starting? then
        var x := s.open[a.t];
        && removed == (set d | d in x.versions && Stands(s.tables, x, d))
        && |removed| <= 128
        && (forall d :: d in removed ==> s.tables.attempts[d].expiresAt <= x.now <= s.clock)
      else removed == {}
  {
    if a.Commit? && s.open[a.t].Starting? {
      StartRemoves(s.tables, s.clock, s.open[a.t]);
    }
  }

  lemma StartRemoves(t: Tables, clock: int, x: Transaction)
    requires x.Starting? && TablesOk(t, clock) && Knows(t, x) && Complete(x)
    ensures
      var removed := t.attempts.Keys - Committed(t, x).attempts.Keys;
      && removed == (set d | d in x.versions && Stands(t, x, d))
      && |removed| <= 128
      && forall d :: d in removed ==> t.attempts[d].expiresAt <= x.now
  {
    var removed := t.attempts.Keys - Committed(t, x).attempts.Keys;
    assert removed == x.deleted by {
      assert x.digest !in t.attempts;
    }
    SubsetSize(removed, x.versions.Keys);
  }

  /** What a cleanup selects: at most 128 expired rows, fewer only if those are all, and no row that was passed over is
      older than a selected one. */
  lemma CleanupSelectsTheOldest(s: State, t: TransactionId, ids: set<Digest>, s': State)
    requires Step(s, Select(t, ids)) == Some(s')
    ensures
      var attempts, x := s.tables.attempts, s'.open[t];
      && (forall d :: d in x.versions <==> d in ids)
      && (forall d :: d in ids ==> d in attempts && x.versions[d] == attempts[d] && attempts[d].expiresAt <= x.now)
      && |ids| <= 128
      && (|ids| < 128 ==> forall d :: d in attempts && attempts[d].expiresAt <= x.now ==> d in ids)
      && (forall d, e :: d in ids && e in attempts && attempts[e].expiresAt <= x.now && e !in ids ==>
            attempts[d].expiresAt <= attempts[e].expiresAt)
  {
    var attempts, now := s.tables.attempts, s.open[t].now;
    assert forall e :: e in attempts && attempts[e].expiresAt <= now ==> e in Expired(attempts, now);
    if |ids| < 128 {
      SameSize(ids, Expired(attempts, now));
    }
  }

  /** There is always such a selection. */
  lemma {:induction false} CleanupCanSelect(attempts: map<Digest, Attempt>, now: int, n: nat) returns (ids: set<Digest>)
    requires n <= |Expired(attempts, now)|
    ensures ids <= Expired(attempts, now) && |ids| == n
    ensures forall d, e :: d in ids && e in Expired(attempts, now) && e !in ids ==> attempts[d].expiresAt <= attempts[e].expiresAt
  {
    ids := {};
    if n > 0 {
      var older := CleanupCanSelect(attempts, now, n - 1);
      var rest := Expired(attempts, now) - older;
      assert |older + rest| == |older| + |rest| && older + rest == Expired(attempts, now);
      var d := Oldest(attempts, rest);
      ids := older + {d};
    }
  }

  lemma {:induction false} Oldest(attempts: map<Digest, Attempt>, ids: set<Digest>) returns (d: Digest)
    requires ids != {} && ids <= attempts.Keys
    ensures d in ids && forall e :: e in ids ==> attempts[d].expiresAt <= attempts[e].expiresAt
    decreases |ids|
  {
    d :| d in ids;
    if ids != {d} {
      assert ids - {d} != {};
      var e := Oldest(attempts, ids - {d});
      if attempts[e].expiresAt < attempts[d].expiresAt {
        d := e;
      }
    }
  }

  lemma SameSize(a: set<Digest>, b: set<Digest>)
    requires a <= b && |a| == |b|
    ensures a == b
  {
    assert b == a + (b - a);
  }

  lemma SubsetSize(a: set<Digest>, b: set<Digest>)
    requires a <= b
    ensures |a| <= |b|
  {
    assert b == a + (b - a);
  }

  /** The commit of a login start adds an attempt that is good for five minutes. */
  lemma StartIssuesAnAttempt(s: State, t: TransactionId, s': State)
    requires Invariant(s) && Step(s, Commit(t)) == Some(s') && s.open[t].Starting?
    ensures
      var x := s.open[t];
      && x.digest !in s.tables.issued
      && x.digest in s'.tables.attempts && s'.tables.attempts[x.digest] == Attempt(x.now + 300_000, None)
      && (forall d :: d in s'.tables.attempts && d != x.digest ==>
            d in s.tables.attempts && s'.tables.attempts[d] == s.tables.attempts[d])
  {
    assert Knows(s.tables, s.open[t]);
  }

  /** A consumption answers a cookie of an attempt that was issued before the request came with the attempt's expiry,
      exactly if the attempt is unexpired and unconsumed at the commit and the cookie opens to that expiry. */
  lemma ConsumptionIsExact(s: State, t: TransactionId, s': State, cookie: Cookie)
    requires Invariant(s) && Step(s, Commit(t)) == Some(s') && s.open[t].Consuming?
    requires cookie in s.open[t].cookies && cookie.digest in s.open[t].issued
    ensures
      var attempts, x, d := s.tables.attempts, s.open[t], cookie.digest;
      var c := s'.tables.log[|s.tables.log|];
      && s'.tables.log == s.tables.log + [c] && c.cookies == x.cookies && c.now == x.now
      && Answer(c, cookie) ==
         if && d in attempts && x.now < attempts[d].expiresAt && attempts[d].consumedAt.None?
            && cookie.sealed == Some(attempts[d].expiresAt)
         then cookie.sealed else None
  {
    var x := s.open[t];
    assert Knows(s.tables, x) && cookie.digest in Digests(x.cookies);
  }

  /** It marks every presented attempt that is unexpired and unconsumed, and no other row. */
  lemma ConsumptionMarksExactly(s: State, t: TransactionId, s': State, d: Digest)
    requires Invariant(s) && Step(s, Commit(t)) == Some(s') && s.open[t].Consuming?
    requires d in s.open[t].issued || forall k :: 0 <= k < |s.open[t].cookies| ==> s.open[t].cookies[k].digest != d
    ensures
      var attempts, after, x := s.tables.attempts, s'.tables.attempts, s.open[t];
      && (d in after <==> d in attempts)
      && (d in attempts ==>
            after[d] ==
            if && (exists k :: 0 <= k < |x.cookies| && x.cookies[k].digest == d)
               && x.now < attempts[d].expiresAt && attempts[d].consumedAt.None?
            then Attempt(attempts[d].expiresAt, Some(x.now)) else attempts[d])
  {
    var x := s.open[t];
    assert Knows(s.tables, x);
    assert d in Digests(x.cookies) <==> exists k :: 0 <= k < |x.cookies| && x.cookies[k].digest == d by {
      if k :| 0 <= k < |x.cookies| && x.cookies[k].digest == d {
        assert x.cookies[k] in x.cookies;
      }
    }
    MarksExactly(s.tables, x, d);
  }

  lemma MarksExactly(t: Tables, x: Transaction, d: Digest)
    requires x.Consuming? && Knows(t, x) && x.unvisited == {} && (d in x.issued || d !in Digests(x.cookies))
    ensures
      var after := Committed(t, x).attempts;
      && (d in after <==> d in t.attempts)
      && (d in t.attempts ==>
            after[d] ==
            if d in Digests(x.cookies) && x.now < t.attempts[d].expiresAt && t.attempts[d].consumedAt.None?
            then Attempt(t.attempts[d].expiresAt, Some(x.now)) else t.attempts[d])
  {
  }

  lemma FreeIsUntouched(s: State, t: TransactionId, d: Digest)
    ensures
      Free(s, t, d) <==> Untouched(s, t, d)
  {
    assert forall o :: o in s.open ==> Held(s.open[o]) == if s.open[o].Starting? then s.open[o].deleted else s.open[o].marked.Keys;
  }

  lemma SelectedHaveVersions(t: Tables, x: Transaction)
    requires x.Starting? && Knows(t, x)
    ensures forall d :: d in x.unvisited ==> d in x.versions
  {
  }

  /** A row is untouched while no other cleanup is about to delete it and no other consumption to mark it. */
  predicate Untouched(s: State, t: TransactionId, d: Digest) {
    forall o :: o in s.open && o != t ==> if s.open[o].Starting? then d !in s.open[o].deleted else d !in s.open[o].marked
  }

  /** A start comes to its selected rows, and a consumption to its presented ones, exactly while they are untouched. */
  lemma RowsAreVisitedExactly(s: State, t: TransactionId, d: Digest)
    requires t in s.open && Knows(s.tables, s.open[t])
    ensures s.open[t].Starting? ==> (Step(s, Delete(t, d)).Some? <==> d in s.open[t].unvisited && Untouched(s, t, d))
    ensures s.open[t].Consuming? ==> (Step(s, Mark(t, d)).Some? <==> d in s.open[t].unvisited && Untouched(s, t, d))
  {
    FreeIsUntouched(s, t, d);
    if s.open[t].Starting? {
      SelectedHaveVersions(s.tables, s.open[t]);
    }
  }

  /** Whoever is aborted leaves nothing behind. */
  lemma AbortIsExact(s: State, t: TransactionId)
    requires t in s.open
    ensures
      Step(s, Abort(t)).Some? && Step(s, Abort(t)).value.tables == s.tables
      && forall o :: o in Step(s, Abort(t)).value.open <==> o in s.open && o != t
  {
  }

  /** The next action of an open transaction, if no other transaction holds a row that it needs. */
  ghost predicate CanGoOn(s: State, t: TransactionId) {
    || (exists ids :: Step(s, Select(t, ids)).Some?)
    || (exists d :: Step(s, Delete(t, d)).Some?)
    || (exists d :: Step(s, Mark(t, d)).Some?)
    || Step(s, Insert(t)).Some?
    || Step(s, Commit(t)).Some?
  }

  lemma SelectionComesFirst(s: State, t: TransactionId)
    requires t in s.open && s.open[t].Starting? && !s.open[t].selected
    ensures CanGoOn(s, t)
  {
    var expired := Expired(s.tables.attempts, s.open[t].now);
    var ids := CleanupCanSelect(s.tables.attempts, s.open[t].now, if |expired| <= CLEANUP_LIMIT then |expired| else CLEANUP_LIMIT);
    assert Step(s, Select(t, ids)).Some?;
  }

  lemma RowsComeNext(s: State, t: TransactionId, d: Digest)
    requires t in s.open && Knows(s.tables, s.open[t]) && d in s.open[t].unvisited && Free(s, t, d)
    ensures CanGoOn(s, t)
  {
    assert if s.open[t].Starting? then Step(s, Delete(t, d)).Some? else Step(s, Mark(t, d)).Some?;
  }

  /** Transactions wait only for rows that others have deleted or marked. */
  lemma WaitsOnlyForLocks(s: State, t: TransactionId)
    requires Invariant(s) && t in s.open
    requires forall o :: o in s.open && o != t ==> Held(s.open[o]) == {}
    ensures CanGoOn(s, t)
  {
    if s.open[t].Starting? && !s.open[t].selected {
      SelectionComesFirst(s, t);
    } else if s.open[t].unvisited != {} {
      var d :| d in s.open[t].unvisited;
      RowsComeNext(s, t, d);
    }
  }

  /** An attempt whose lifetime has not run out is in the table in every reachable state, with the expiry that it was
      issued with, and is marked consumed if and only if some consumption has marked it. */
  lemma LiveAttemptsArePresent(states: seq<State>, actions: seq<Action>, k: nat, d: Digest)
    requires IsRun(states, actions) && k < |states| && Empty(states[0])
    requires d in states[k].tables.issued && states[k].clock < states[k].tables.issued[d]
    ensures d in states[k].tables.attempts && states[k].tables.attempts[d].expiresAt == states[k].tables.issued[d]
    ensures states[k].tables.attempts[d].consumedAt.Some? <==> MarkedIn(states[k].tables.log, d)
  {
    InvariantHolds(states, actions, k);
  }
}
