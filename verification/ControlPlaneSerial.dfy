/** Interleaved transactions are serializable in the order of their commits: a commit leaves the tables as the
    transaction would have left them had it run alone at that moment. */
module ControlPlaneSerial {
  import opened Wrappers
  import opened ControlPlane
  import opened ControlPlaneInvariant
  import opened ControlPlaneAlone
  import opened Memberships
  import opened ProjectLimit

  // ----- What a transaction has read -----

  /** What was read and is not written: it decided that the transaction goes on, and its locks keep it true. */
  ghost predicate HasRead(t: Tables, x: Transaction) {
    match x.request
    case CreateProject(owner, _, key) =>
      && (x.stage != Begun ==> owner in t.users)
      && (x.stage in {Changed, MemberChanged, Recorded} ==> !KeyTaken(t, owner, Some(key)))
    case CreateUnowned(_) => true
    case ArchiveProject(owner, p) =>
      x.stage in {Changed, Recorded} ==> OwnedBy(t, p, owner) && t.projects[p].status == Active
    case OperatorArchive(p) => x.stage in {Changed, Recorded} ==> p in t.projects && t.projects[p].status == Active
    case RestoreProject(owner, _) => x.stage != Begun ==> owner in t.users
    case DeleteProject(_, p, confirmName) =>
      x.stage in {Changed, Recorded} ==> p in t.projects && t.projects[p].name == confirmName
    case AssignOwner(p, u) =>
      && (x.stage !in {Begun, UserLocked} ==> u in t.users && !t.users[u].blocked)
      && (x.stage in {Changed, MemberChanged, Recorded} ==> p in t.projects && !KeyTaken(t, u, t.projects[p].createKey))
      && (x.stage in {MemberChanged, Recorded} ==> (p, u) !in t.members)
    case CreateInvitation(_, _) => true
    case Redeem(_, _) => true
    case RevokeInvitation(owner, p, _) => x.stage != Begun ==> OwnedBy(t, p, owner)
    case RemoveViewer(owner, p, _) => x.stage != Begun ==> OwnedBy(t, p, owner)
  }

  lemma StatementReads(limit: nat, s: State, t: TransactionId, newId: nat, y: Transaction)
    requires t in s.open && Knows(limit, s.tables, s.open[t]) && HasRead(s.tables, s.open[t])
    requires Statement(limit, s, t, newId) == Go(y)
    ensures HasRead(s.tables, y)
  {
    match s.open[t].request
    case CreateProject(_, _, _) => CreationReads(limit, s, t, newId, y);
    case AssignOwner(_, _) => AssignmentReads(limit, s, t, newId, y);
    case _ =>
  }

  lemma CreationReads(limit: nat, s: State, t: TransactionId, newId: nat, y: Transaction)
    requires t in s.open && s.open[t].request.CreateProject?
    requires Knows(limit, s.tables, s.open[t]) && HasRead(s.tables, s.open[t]) && Statement(limit, s, t, newId) == Go(y)
    ensures HasRead(s.tables, y)
  {
  }

  lemma AssignmentReads(limit: nat, s: State, t: TransactionId, newId: nat, y: Transaction)
    requires t in s.open && s.open[t].request.AssignOwner?
    requires Knows(limit, s.tables, s.open[t]) && HasRead(s.tables, s.open[t]) && Statement(limit, s, t, newId) == Go(y)
    ensures HasRead(s.tables, y)
  {
  }

  // ----- What the locks keep true -----

  /** Only who holds a user's row gives the user a new creation key. */
  ghost predicate NoNewKeys(t: Tables, t': Tables, held: set<Row>) {
    forall u: UserId, key: Option<nat> :: KeyTaken(t', u, key) ==> KeyTaken(t, u, key) || UserRow(u) in held
  }

  lemma {:induction false} WritesKeepUsers(t: Tables, writes: seq<Write>)
    ensures Apply(t, writes).users == t.users
    decreases |writes|
  {
    if writes != [] {
      WritesKeepUsers(ApplyWrite(t, writes[0]), writes[1..]);
    }
  }

  lemma FirstWriteAddsNoKeys(limit: nat, t: Tables, x: Transaction)
    requires Knows(limit, t, x) && x.stage in {Recorded, Finished} && x.writes != []
    ensures NoNewKeys(t, ApplyWrite(t, x.writes[0]), x.held)
  {
    var t' := ApplyWrite(t, x.writes[0]);
    forall u: UserId, key: Option<nat> | KeyTaken(t', u, key)
      ensures KeyTaken(t, u, key) || UserRow(u) in x.held
    {
      var p :| p in t'.projects && t'.projects[p].owner == Some(u) && t'.projects[p].createKey == key;
      assert (p in t.projects && t'.projects[p] == t.projects[p]) || (x.writes[0].PutProject? && x.writes[0].p == p);
    }
  }

  lemma CommitAddsNoKeys(limit: nat, t: Tables, x: Transaction)
    requires Knows(limit, t, x) && x.stage in {Recorded, Finished}
    ensures NoNewKeys(t, Apply(t, x.writes), x.held)
  {
    if x.writes != [] {
      FirstWriteAddsNoKeys(limit, t, x);
      OtherWritesKeepProjects(ApplyWrite(t, x.writes[0]), x.writes[1..]);
    }
  }

  lemma OthersHaveStillRead(limit: nat, t: Tables, t': Tables, x: Transaction, y: Transaction)
    requires Guarantee(t, t', x.held, x.shared) && NoNewKeys(t, t', x.held) && t'.users == t.users
    requires Compatible(x, y) && Knows(limit, t, y) && HasRead(t, y)
    ensures HasRead(t', y)
  {
    match y.request
    case CreateProject(owner, _, key) =>
      assert KeyTaken(t', owner, Some(key)) ==> KeyTaken(t, owner, Some(key)) || UserRow(owner) in x.held;
    case AssignOwner(p, u) =>
      assert SameProject(t, t', p) || ProjectRow(p) in x.held;
      assert SameMember(t, t', (p, u)) || MemberRow(p, u) in x.held;
      if y.stage in {Changed, MemberChanged, Recorded} {
        var key := t.projects[p].createKey;
        assert KeyTaken(t', u, key) ==> KeyTaken(t, u, key) || UserRow(u) in x.held;
      }
    case ArchiveProject(_, p) => assert SameProject(t, t', p) || ProjectRow(p) in x.held;
    case OperatorArchive(p) => assert SameProject(t, t', p) || ProjectRow(p) in x.held;
    case DeleteProject(_, p, _) => assert SameProject(t, t', p) || ProjectRow(p) in x.held;
    case RevokeInvitation(_, p, _) => assert SameProject(t, t', p) || ProjectRow(p) in x.held;
    case RemoveViewer(_, p, _) => assert SameProject(t, t', p) || ProjectRow(p) in x.held;
    case _ =>
  }

  // ----- Reachable states -----

  ghost predicate Informed(limit: nat, s: State) {
    Consistent(limit, s) && forall t :: t in s.open ==> HasRead(s.tables, s.open[t])
  }

  lemma CommitKeepsInformed(limit: nat, s: State, t: TransactionId, s': State)
    requires Informed(limit, s) && Step(limit, s, Commit(t)) == Some(s')
    ensures forall o :: o in s'.open ==> HasRead(s'.tables, s'.open[o])
  {
    var x := s.open[t];
    CommitGuarantees(limit, s.tables, x);
    CommitAddsNoKeys(limit, s.tables, x);
    WritesKeepUsers(s.tables, x.writes);
    forall o | o in s'.open
      ensures HasRead(s'.tables, s'.open[o])
    {
      OthersHaveStillRead(limit, s.tables, s'.tables, x, s.open[o]);
    }
  }

  /** New users, and blockings of users whose row is free, take nothing back that was read. */
  lemma UsersKeepInformed(limit: nat, s: State, a: Action, s': State, t: TransactionId)
    requires Informed(limit, s) && Step(limit, s, a) == Some(s') && (a.AddUser? || a.SetBlocked?) && t in s.open
    ensures s'.open == s.open && HasRead(s'.tables, s.open[t])
  {
    var x := s.open[t];
    assert Knows(limit, s.tables, x) && HasRead(s.tables, x);
    match x.request
    case CreateProject(owner, _, key) => assert KeyTaken(s'.tables, owner, Some(key)) <==> KeyTaken(s.tables, owner, Some(key));
    case AssignOwner(p, u) =>
      if x.stage in {Changed, MemberChanged, Recorded} {
        var key := s.tables.projects[p].createKey;
        assert KeyTaken(s'.tables, u, key) <==> KeyTaken(s.tables, u, key);
      }
    case _ =>
  }

  lemma StepKeepsInformed(limit: nat, s: State, a: Action, s': State)
    requires Informed(limit, s) && Step(limit, s, a) == Some(s')
    ensures Informed(limit, s')
  {
    StepKeepsConsistent(limit, s, a, s');
    match a
    case Begin(_, _, _) =>
    case Execute(t, newId) =>
      if Statement(limit, s, t, newId).Go? {
        StatementReads(limit, s, t, newId, Statement(limit, s, t, newId).next);
      }
    case Commit(t) => CommitKeepsInformed(limit, s, t, s');
    case Abort(_) =>
    case _ =>
      forall t | t in s'.open
        ensures HasRead(s'.tables, s'.open[t])
      {
        UsersKeepInformed(limit, s, a, s', t);
      }
  }

  lemma {:induction false} InformedHolds(limit: nat, states: seq<State>, actions: seq<Action>, k: nat)
    requires IsRun(limit, states, actions) && k < |states| && Empty(states[0])
    ensures Informed(limit, states[k]) && Agreement(states[k].tables)
    decreases k
  {
    MembershipsAgree(limit, states, actions, k);
    if k > 0 {
      InformedHolds(limit, states, actions, k - 1);
      StepKeepsInformed(limit, states[k - 1], actions[k - 1], states[k]);
    }
  }

  // ----- A commit is a lone run -----

  lemma CreationIsEffect(limit: nat, t: Tables, x: Transaction)
    requires x.request.CreateProject? && Knows(limit, t, x) && HasRead(t, x) && x.stage == Recorded
    ensures Effect(limit, t, x.request, x.now, x.id) == Some(Apply(t, x.writes))
  {
    TestsAgree(limit, t);
    ApplyThree(t, x.writes[0], x.writes[1], x.writes[2]);
  }

  lemma AssignmentIsEffect(limit: nat, t: Tables, x: Transaction)
    requires x.request.AssignOwner? && Knows(limit, t, x) && HasRead(t, x) && x.stage == Recorded
    ensures Effect(limit, t, x.request, x.now, x.id) == Some(Apply(t, x.writes))
  {
    TestsAgree(limit, t);
    ApplyThree(t, x.writes[0], x.writes[1], x.writes[2]);
  }

  /** Only an owned project has invitations, and its owner is a member. */
  lemma RedemptionIsEffect(limit: nat, t: Tables, x: Transaction)
    requires x.request.Redeem? && Knows(limit, t, x) && x.stage == Recorded && MembersAgree(t)
    ensures Effect(limit, t, x.request, x.now, x.id) == Some(Apply(t, x.writes))
  {
    TestsAgree(limit, t);
    ApplyThree(t, x.writes[0], x.writes[1], x.writes[2]);
    assert !OwnedBy(t, x.id, x.request.user);
  }

  lemma TwoWritesAreEffect(limit: nat, t: Tables, x: Transaction)
    requires Knows(limit, t, x) && HasRead(t, x) && x.stage == Recorded
    requires !x.request.CreateProject? && !x.request.CreateUnowned? && !x.request.AssignOwner? && !x.request.Redeem?
    ensures Effect(limit, t, x.request, x.now, x.id) == Some(Apply(t, x.writes))
  {
    TestsAgree(limit, t);
    ApplyTwo(t, x.writes[0], x.writes[1]);
  }

  /** Whatever happened since a transaction began, its commit has the effect that it promises on the tables of the
      moment. */
  lemma CommitIsEffect(limit: nat, t: Tables, x: Transaction)
    requires Knows(limit, t, x) && HasRead(t, x) && x.stage == Recorded && MembersAgree(t)
    ensures Effect(limit, t, x.request, x.now, x.id) == Some(Apply(t, x.writes))
  {
    match x.request
    case CreateProject(_, _, _) => CreationIsEffect(limit, t, x);
    case CreateUnowned(_) => ApplyOne(t, x.writes[0]);
    case AssignOwner(_, _) => AssignmentIsEffect(limit, t, x);
    case Redeem(_, _) => RedemptionIsEffect(limit, t, x);
    case _ => TwoWritesAreEffect(limit, t, x);
  }

  /** In every run, a commit leaves the tables as the transaction leaves them that begins and ends alone at that moment
      with the same identifier and clock. */
  lemma CommitIsLoneRun(limit: nat, states: seq<State>, actions: seq<Action>, k: nat)
    requires IsRun(limit, states, actions) && k < |actions| && Empty(states[0])
    requires actions[k].Commit? && actions[k].t in states[k].open && states[k].open[actions[k].t].stage == Recorded
    ensures
      var x := states[k].open[actions[k].t];
      Alone(limit, states[k].tables, x.request, x.now, x.id) == Some(states[k + 1].tables)
  {
    var t, x := states[k].tables, states[k].open[actions[k].t];
    InformedHolds(limit, states, actions, k);
    assert Knows(limit, t, x) && HasRead(t, x);
    CommitIsEffect(limit, t, x);
    assert Unused(t, x.request, x.id);
    AloneIsEffect(limit, t, x.request, x.now, x.id);
  }

  // ----- A run is a serial run -----

  /** What changes the tables: a transaction that commits its writes, or the users from outside. */
  datatype Deed = Committed(request: Request, now: int, id: nat) | Joined(u: UserId) | Blocked(u: UserId, blocked: bool)

  function DeedOf(s: State, a: Action): seq<Deed> {
    match a
    case Commit(t) =>
      if t in s.open && s.open[t].stage == Recorded then [Committed(s.open[t].request, s.open[t].now, s.open[t].id)] else []
    case AddUser(u) => [Joined(u)]
    case SetBlocked(u, blocked) => [Blocked(u, blocked)]
    case _ => []
  }

  /** The deeds of a run in their order: of a transaction, the moment of its commit counts. */
  function Deeds(states: seq<State>, actions: seq<Action>): seq<Deed>
    requires |states| == |actions| + 1
  {
    if actions == [] then []
    else
      var n := |actions| - 1;
      Deeds(states[..n + 1], actions[..n]) + DeedOf(states[n], actions[n])
  }

  function AfterDeed(limit: nat, t: Tables, deed: Deed): Option<Tables> {
    match deed
    case Committed(request, now, id) => Alone(limit, t, request, now, id)
    case Joined(u) => Some(t.(users := t.users[u := User(false)]))
    case Blocked(u, blocked) => Some(t.(users := t.users[u := User(blocked)]))
  }

  function Serially(limit: nat, t: Tables, deeds: seq<Deed>): Option<Tables> {
    if deeds == [] then Some(t)
    else
      match Serially(limit, t, deeds[..|deeds| - 1])
      case None => None
      case Some(before) => AfterDeed(limit, before, deeds[|deeds| - 1])
  }

  /** All other steps leave the tables alone; a repeated creation commits nothing. */
  lemma IdleSteps(limit: nat, s: State, a: Action, s': State)
    requires Consistent(limit, s) && Step(limit, s, a) == Some(s') && DeedOf(s, a) == []
    ensures s'.tables == s.tables
  {
    assert a.Commit? ==> Knows(limit, s.tables, s.open[a.t]) && s.open[a.t].stage == Finished;
  }

  lemma StepIsSerial(limit: nat, states: seq<State>, actions: seq<Action>, k: nat, deeds: seq<Deed>)
    requires IsRun(limit, states, actions) && k < |actions| && Empty(states[0])
    requires Serially(limit, states[0].tables, deeds) == Some(states[k].tables)
    ensures Serially(limit, states[0].tables, deeds + DeedOf(states[k], actions[k])) == Some(states[k + 1].tables)
  {
    var more := DeedOf(states[k], actions[k]);
    DeedIsStep(limit, states, actions, k);
    if more == [] {
      assert deeds + more == deeds;
    } else {
      OneDeedMore(limit, states[0].tables, deeds, more[0]);
    }
  }

  lemma OneDeedMore(limit: nat, t: Tables, deeds: seq<Deed>, deed: Deed)
    ensures
      Serially(limit, t, deeds + [deed]) ==
      match Serially(limit, t, deeds) case None => None case Some(before) => AfterDeed(limit, before, deed)
  {
    assert (deeds + [deed])[..|deeds|] == deeds;
  }

  lemma DeedIsStep(limit: nat, states: seq<State>, actions: seq<Action>, k: nat)
    requires IsRun(limit, states, actions) && k < |actions| && Empty(states[0])
    ensures
      var more := DeedOf(states[k], actions[k]);
      if more == [] then states[k + 1].tables == states[k].tables
      else more == [more[0]] && AfterDeed(limit, states[k].tables, more[0]) == Some(states[k + 1].tables)
  {
    assert Step(limit, states[k], actions[k]) == Some(states[k + 1]);
    if DeedOf(states[k], actions[k]) == [] {
      InformedHolds(limit, states, actions, k);
      IdleSteps(limit, states[k], actions[k], states[k + 1]);
    } else if actions[k].Commit? {
      CommitIsLoneRun(limit, states, actions, k);
    }
  }

  /** Every run, from an empty start, ends with the tables of a serial run: the same transactions, each begun and ended
      alone, in the order in which they committed. */
  lemma {:induction false} RunsAreSerial(limit: nat, states: seq<State>, actions: seq<Action>)
    requires IsRun(limit, states, actions) && Empty(states[0])
    ensures Serially(limit, states[0].tables, Deeds(states, actions)) == Some(states[|actions|].tables)
    decreases |actions|
  {
    if actions != [] {
      var n := |actions| - 1;
      RunsAreSerial(limit, states[..n + 1], actions[..n]);
      StepIsSerial(limit, states, actions, n, Deeds(states[..n + 1], actions[..n]));
    }
  }
}
