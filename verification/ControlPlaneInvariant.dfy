/** Why the interleaving of control-plane transactions is safe: what a transaction has read stays true until it ends,
    because every other transaction changes only rows that it has locked itself. */
module ControlPlaneInvariant {
  import opened Wrappers
  import opened ControlPlane

  // ----- What an open transaction knows -----

  ghost predicate CreateProjectKnows(limit: nat, t: Tables, x: Transaction)
    requires x.request.CreateProject?
  {
    var r := x.request;
    var put := PutProject(x.id, Project(Some(r.owner), Active, r.name, Some(r.key)));
    var putMember := PutMember(x.id, r.owner, Owner);
    && (x.stage != Begun ==> UserRow(r.owner) in x.held)
    && (x.stage in {LimitChecked, Changed, MemberChanged, Recorded} ==> WithinLimit(limit, t, r.owner))
    && (x.stage in {Changed, MemberChanged, Recorded} ==> ProjectRow(x.id) in x.held && x.id !in t.seen)
    && (x.stage in {MemberChanged, Recorded} ==> MemberRow(x.id, r.owner) in x.held)
    && (match x.stage
        case Begun | UserLocked | Checked | LimitChecked | Finished => x.writes == []
        case Changed => x.writes == [put]
        case MemberChanged => x.writes == [put, putMember]
        case Recorded => x.writes == [put, putMember, Record(Created(x.id))]
        case _ => false)
  }

  ghost predicate CreateUnownedKnows(t: Tables, x: Transaction)
    requires x.request.CreateUnowned?
  {
    match x.stage
    case Begun => x.writes == []
    case Recorded =>
      && ProjectRow(x.id) in x.held && x.id !in t.seen
      && x.writes == [PutProject(x.id, Project(None, Active, x.request.name, None))]
    case _ => false
  }

  /** Archiving by the owner or by an operator. */
  ghost predicate ArchivingKnows(t: Tables, x: Transaction, p: ProjectId) {
    && (x.stage != Begun ==> ProjectRow(p) in x.held)
    && (x.stage in {Changed, Recorded} ==> p in t.projects)
    && (match x.stage
        case Begun | Checked => x.writes == []
        case Changed => x.writes == [PutProject(p, t.projects[p].(status := Archived))]
        case Recorded =>
          x.writes == [PutProject(p, t.projects[p].(status := Archived)), Record(ArchivedEvent(p))]
        case _ => false)
  }

  ghost predicate RestoreProjectKnows(limit: nat, t: Tables, x: Transaction)
    requires x.request.RestoreProject?
  {
    var r := x.request;
    && (x.stage != Begun ==> UserRow(r.owner) in x.held)
    && (x.stage in {ProjectLocked, LimitChecked, Changed, Recorded} ==> ProjectRow(r.p) in x.held)
    && (x.stage in {LimitChecked, Changed, Recorded} ==>
          OwnedBy(t, r.p, r.owner) && t.projects[r.p].status == Archived && WithinLimit(limit, t, r.owner))
    && (match x.stage
        case Begun | UserLocked | ProjectLocked | LimitChecked => x.writes == []
        case Changed => x.writes == [PutProject(r.p, t.projects[r.p].(status := Active))]
        case Recorded => x.writes == [PutProject(r.p, t.projects[r.p].(status := Active)), Record(Restored(r.p))]
        case _ => false)
  }

  ghost predicate DeleteProjectKnows(t: Tables, x: Transaction)
    requires x.request.DeleteProject?
  {
    var r := x.request;
    && (x.stage != Begun ==> ProjectRow(r.p) in x.held)
    && (x.stage in {Changed, Recorded} ==> OwnedBy(t, r.p, r.owner) && DependentRows(t, r.p) <= x.held)
    && (match x.stage
        case Begun | Checked => x.writes == []
        case Changed => x.writes == [DropProject(r.p)]
        case Recorded => x.writes == [DropProject(r.p), Record(Deleted(r.p))]
        case _ => false)
  }

  ghost predicate AssignOwnerKnows(limit: nat, t: Tables, x: Transaction)
    requires x.request.AssignOwner?
  {
    var r := x.request;
    var putMember := PutMember(r.p, r.destination, Owner);
    && (x.stage != Begun ==> UserRow(r.destination) in x.held)
    && (x.stage in {ProjectLocked, LimitChecked, Changed, MemberChanged, Recorded} ==> ProjectRow(r.p) in x.held)
    && (x.stage in {LimitChecked, Changed, MemberChanged, Recorded} ==>
          Ownerless(t, r.p) && (t.projects[r.p].status == Active ==> WithinLimit(limit, t, r.destination)))
    && (x.stage in {MemberChanged, Recorded} ==> MemberRow(r.p, r.destination) in x.held)
    && (match x.stage
        case Begun | UserLocked | Checked | ProjectLocked | LimitChecked => x.writes == []
        case Changed => x.writes == [PutProject(r.p, t.projects[r.p].(owner := Some(r.destination)))]
        case MemberChanged => x.writes == [PutProject(r.p, t.projects[r.p].(owner := Some(r.destination))), putMember]
        case Recorded =>
          x.writes == [PutProject(r.p, t.projects[r.p].(owner := Some(r.destination))), putMember,
                       Record(OwnerAssigned(r.p, r.destination))]
        case _ => false)
  }

  ghost predicate CreateInvitationKnows(t: Tables, x: Transaction)
    requires x.request.CreateInvitation?
  {
    var r := x.request;
    var put := PutInvitation(x.id, Invitation(r.p, r.owner, x.now + INVITATION_LIFETIME_MS, None, false));
    && (x.stage != Begun ==> ProjectRow(r.p) in x.held && OwnedBy(t, r.p, r.owner))
    && (x.stage in {Changed, Recorded} ==> InvitationRow(x.id) in x.held && x.id !in t.issued)
    && (match x.stage
        case Begun | ProjectLocked => x.writes == []
        case Changed => x.writes == [put]
        case Recorded => x.writes == [put, Record(InvitationCreated(r.p, x.id))]
        case _ => false)
  }

  ghost predicate RedeemKnows(t: Tables, x: Transaction)
    requires x.request.Redeem?
  {
    var r := x.request;
    && (x.stage != Begun ==>
          && InvitationRow(r.i) in x.held
          && r.i in t.invitations && Pending(t.invitations[r.i], x.now) && t.invitations[r.i].project == x.id)
    && (x.stage in {MemberChanged, Recorded} ==>
          && MemberRow(x.id, r.user) in x.held && (x.id, r.user) !in t.members
          && ProjectRow(x.id) in x.shared && x.id in t.projects)
    && (match x.stage
        case Begun | InvitationLocked | MembershipRead | Checked => x.writes == []
        case Changed => x.writes == [PutInvitation(r.i, t.invitations[r.i].(redeemedBy := Some(r.user)))]
        case MemberChanged =>
          x.writes == [PutInvitation(r.i, t.invitations[r.i].(redeemedBy := Some(r.user))), PutMember(x.id, r.user, Viewer)]
        case Recorded =>
          x.writes == [PutInvitation(r.i, t.invitations[r.i].(redeemedBy := Some(r.user))), PutMember(x.id, r.user, Viewer),
                       Record(InvitationRedeemed(x.id, r.i, r.user))]
        case _ => false)
  }

  ghost predicate RevokeInvitationKnows(t: Tables, x: Transaction)
    requires x.request.RevokeInvitation?
  {
    var r := x.request;
    && (x.stage != Begun ==> ProjectRow(r.p) in x.held)
    && (x.stage in {Changed, Recorded} ==>
          && InvitationRow(r.i) in x.held
          && r.i in t.invitations && t.invitations[r.i].project == r.p && Pending(t.invitations[r.i], x.now))
    && (match x.stage
        case Begun | ProjectLocked => x.writes == []
        case Changed => x.writes == [PutInvitation(r.i, t.invitations[r.i].(revoked := true))]
        case Recorded =>
          x.writes == [PutInvitation(r.i, t.invitations[r.i].(revoked := true)), Record(InvitationRevoked(r.p, r.i))]
        case _ => false)
  }

  ghost predicate RemoveViewerKnows(t: Tables, x: Transaction)
    requires x.request.RemoveViewer?
  {
    var r := x.request;
    && (x.stage != Begun ==> ProjectRow(r.p) in x.held)
    && (x.stage in {Changed, Recorded} ==>
          && MemberRow(r.p, r.user) in x.held
          && (r.p, r.user) in t.members && t.members[(r.p, r.user)] == Viewer)
    && (match x.stage
        case Begun | ProjectLocked => x.writes == []
        case Changed => x.writes == [DropMember(r.p, r.user)]
        case Recorded => x.writes == [DropMember(r.p, r.user), Record(ViewerRemoved(r.p, r.user))]
        case _ => false)
  }

  /** What a transaction has read stays true until it ends, because of the rows it has locked. */
  ghost predicate Knows(limit: nat, t: Tables, x: Transaction) {
    match x.request
    case CreateProject(_, _, _) => CreateProjectKnows(limit, t, x)
    case CreateUnowned(_) => CreateUnownedKnows(t, x)
    case ArchiveProject(_, p) => ArchivingKnows(t, x, p)
    case RestoreProject(_, _) => RestoreProjectKnows(limit, t, x)
    case DeleteProject(_, _, _) => DeleteProjectKnows(t, x)
    case OperatorArchive(p) => ArchivingKnows(t, x, p)
    case AssignOwner(_, _) => AssignOwnerKnows(limit, t, x)
    case CreateInvitation(_, _) => CreateInvitationKnows(t, x)
    case Redeem(_, _) => RedeemKnows(t, x)
    case RevokeInvitation(_, _, _) => RevokeInvitationKnows(t, x)
    case RemoveViewer(_, _, _) => RemoveViewerKnows(t, x)
  }

  /** Locks exclude each other. */
  ghost predicate Compatible(x: Transaction, y: Transaction) {
    x.held !! y.held && x.held !! y.shared && x.shared !! y.held
  }

  // ----- A statement learns only what its locks protect -----

  /** A statement takes only rows that are free. */
  ghost predicate Acquires(s: State, t: TransactionId, x: Transaction, y: Transaction) {
    && x.held <= y.held && x.shared <= y.shared
    && (forall row :: row in y.held && row !in x.held ==> Free(s, t, row))
    && (forall row :: row in y.shared && row !in x.shared ==> FreeForShare(s, t, row))
  }

  lemma CreateProjectKeeps(limit: nat, s: State, t: TransactionId, x: Transaction, newId: nat, y: Transaction)
    requires t in s.open && s.open[t] == x && x.request.CreateProject? && StepCreateProject(limit, s, t, x, newId) == Go(y)
    requires CreateProjectKnows(limit, s.tables, x)
    ensures y.request == x.request && CreateProjectKnows(limit, s.tables, y)
    ensures Acquires(s, t, x, y)
  {
  }

  lemma CreateUnownedKeeps(s: State, t: TransactionId, x: Transaction, newId: nat, y: Transaction)
    requires t in s.open && s.open[t] == x && x.request.CreateUnowned? && StepCreateUnowned(s, t, x, newId) == Go(y)
    requires CreateUnownedKnows(s.tables, x)
    ensures y.request == x.request && CreateUnownedKnows(s.tables, y)
    ensures Acquires(s, t, x, y)
  {
  }

  lemma ArchiveProjectKeeps(s: State, t: TransactionId, x: Transaction, y: Transaction)
    requires t in s.open && s.open[t] == x && x.request.ArchiveProject? && StepArchiveProject(s, t, x) == Go(y)
    requires ArchivingKnows(s.tables, x, x.request.p)
    ensures y.request == x.request && ArchivingKnows(s.tables, y, x.request.p)
    ensures Acquires(s, t, x, y)
  {
  }

  lemma RestoreProjectKeeps(limit: nat, s: State, t: TransactionId, x: Transaction, y: Transaction)
    requires t in s.open && s.open[t] == x && x.request.RestoreProject? && StepRestoreProject(limit, s, t, x) == Go(y)
    requires RestoreProjectKnows(limit, s.tables, x)
    ensures y.request == x.request && RestoreProjectKnows(limit, s.tables, y)
    ensures Acquires(s, t, x, y)
  {
  }

  lemma DeleteProjectKeeps(s: State, t: TransactionId, x: Transaction, y: Transaction)
    requires t in s.open && s.open[t] == x && x.request.DeleteProject? && StepDeleteProject(s, t, x) == Go(y)
    requires DeleteProjectKnows(s.tables, x)
    ensures y.request == x.request && DeleteProjectKnows(s.tables, y)
    ensures Acquires(s, t, x, y)
  {
  }

  lemma OperatorArchiveKeeps(s: State, t: TransactionId, x: Transaction, y: Transaction)
    requires t in s.open && s.open[t] == x && x.request.OperatorArchive? && StepOperatorArchive(s, t, x) == Go(y)
    requires ArchivingKnows(s.tables, x, x.request.p)
    ensures y.request == x.request && ArchivingKnows(s.tables, y, x.request.p)
    ensures Acquires(s, t, x, y)
  {
  }

  lemma AssignOwnerKeeps(limit: nat, s: State, t: TransactionId, x: Transaction, y: Transaction)
    requires t in s.open && s.open[t] == x && x.request.AssignOwner? && StepAssignOwner(limit, s, t, x) == Go(y)
    requires AssignOwnerKnows(limit, s.tables, x)
    ensures y.request == x.request && AssignOwnerKnows(limit, s.tables, y)
    ensures Acquires(s, t, x, y)
  {
  }

  lemma CreateInvitationKeeps(s: State, t: TransactionId, x: Transaction, newId: nat, y: Transaction)
    requires t in s.open && s.open[t] == x && x.request.CreateInvitation? && StepCreateInvitation(s, t, x, newId) == Go(y)
    requires CreateInvitationKnows(s.tables, x)
    ensures y.request == x.request && CreateInvitationKnows(s.tables, y)
    ensures Acquires(s, t, x, y)
  {
  }

  lemma RedeemKeeps(s: State, t: TransactionId, x: Transaction, y: Transaction)
    requires t in s.open && s.open[t] == x && x.request.Redeem? && StepRedeem(s, t, x) == Go(y)
    requires RedeemKnows(s.tables, x)
    ensures y.request == x.request && RedeemKnows(s.tables, y)
    ensures Acquires(s, t, x, y)
  {
  }

  lemma RevokeInvitationKeeps(s: State, t: TransactionId, x: Transaction, y: Transaction)
    requires t in s.open && s.open[t] == x && x.request.RevokeInvitation? && StepRevokeInvitation(s, t, x) == Go(y)
    requires RevokeInvitationKnows(s.tables, x)
    ensures y.request == x.request && RevokeInvitationKnows(s.tables, y)
    ensures Acquires(s, t, x, y)
  {
  }

  lemma RemoveViewerKeeps(s: State, t: TransactionId, x: Transaction, y: Transaction)
    requires t in s.open && s.open[t] == x && x.request.RemoveViewer? && StepRemoveViewer(s, t, x) == Go(y)
    requires RemoveViewerKnows(s.tables, x)
    ensures y.request == x.request && RemoveViewerKnows(s.tables, y)
    ensures Acquires(s, t, x, y)
  {
  }

  lemma StatementKeeps(limit: nat, s: State, t: TransactionId, newId: nat, y: Transaction)
    requires t in s.open && Knows(limit, s.tables, s.open[t]) && Statement(limit, s, t, newId) == Go(y)
    ensures Knows(limit, s.tables, y)
    ensures Acquires(s, t, s.open[t], y)
  {
    var x := s.open[t];
    match x.request
    case CreateProject(_, _, _) => CreateProjectKeeps(limit, s, t, x, newId, y);
    case CreateUnowned(_) => CreateUnownedKeeps(s, t, x, newId, y);
    case ArchiveProject(_, _) => ArchiveProjectKeeps(s, t, x, y);
    case RestoreProject(_, _) => RestoreProjectKeeps(limit, s, t, x, y);
    case DeleteProject(_, _, _) => DeleteProjectKeeps(s, t, x, y);
    case OperatorArchive(_) => OperatorArchiveKeeps(s, t, x, y);
    case AssignOwner(_, _) => AssignOwnerKeeps(limit, s, t, x, y);
    case CreateInvitation(_, _) => CreateInvitationKeeps(s, t, x, newId, y);
    case Redeem(_, _) => RedeemKeeps(s, t, x, y);
    case RevokeInvitation(_, _, _) => RevokeInvitationKeeps(s, t, x, y);
    case RemoveViewer(_, _, _) => RemoveViewerKeeps(s, t, x, y);
  }

  // ----- What a commit may change under the eyes of others -----

  ghost predicate SameProject(t: Tables, t': Tables, p: ProjectId) {
    && (p in t.projects <==> p in t'.projects)
    && (p in t.projects ==> t.projects[p] == t'.projects[p])
    && (p in t.seen <==> p in t'.seen)
  }

  ghost predicate SameInvitation(t: Tables, t': Tables, i: InvitationId) {
    && (i in t.invitations <==> i in t'.invitations)
    && (i in t.invitations ==> t.invitations[i] == t'.invitations[i])
    && (i in t.issued <==> i in t'.issued)
  }

  ghost predicate SameMember(t: Tables, t': Tables, k: (ProjectId, UserId)) {
    && (k in t.members <==> k in t'.members)
    && (k in t.members ==> t.members[k] == t'.members[k])
  }

  ghost predicate NoMoreActive(t: Tables, t': Tables, u: UserId) {
    ActiveCount(t'.projects, u) <= ActiveCount(t.projects, u)
  }

  /** A change of the tables that touches only rows in `held`, and adds dependents only to projects in `held` or
      `shared`. */
  ghost predicate Guarantee(t: Tables, t': Tables, held: set<Row>, shared: set<Row>) {
    && (forall p: ProjectId :: SameProject(t, t', p) || ProjectRow(p) in held)
    && (forall i: InvitationId :: SameInvitation(t, t', i) || InvitationRow(i) in held)
    && (forall k: (ProjectId, UserId) :: SameMember(t, t', k) || MemberRow(k.0, k.1) in held)
    && (forall u: UserId :: NoMoreActive(t, t', u) || UserRow(u) in held)
    && (forall k :: k in t'.members && k !in t.members ==> ProjectRow(k.0) in held || ProjectRow(k.0) in shared)
    && (forall i :: i in t'.invitations && !(i in t.invitations && t.invitations[i].project == t'.invitations[i].project) ==>
          ProjectRow(t'.invitations[i].project) in held)
  }

  lemma NoNewDependents(t: Tables, t': Tables, held: set<Row>, shared: set<Row>, p: ProjectId)
    requires Guarantee(t, t', held, shared) && ProjectRow(p) !in held && ProjectRow(p) !in shared
    ensures DependentRows(t', p) <= DependentRows(t, p)
  {
  }

  /** What another transaction knows survives such a change. */
  lemma OthersStillKnow(limit: nat, t: Tables, t': Tables, x: Transaction, y: Transaction)
    requires Guarantee(t, t', x.held, x.shared) && Compatible(x, y) && Knows(limit, t, y)
    ensures Knows(limit, t', y)
  {
    match y.request
    case CreateProject(_, _, _) =>
      assert SameProject(t, t', y.id) || ProjectRow(y.id) in x.held;
      assert NoMoreActive(t, t', y.request.owner) || UserRow(y.request.owner) in x.held;
    case CreateUnowned(_) =>
      assert SameProject(t, t', y.id) || ProjectRow(y.id) in x.held;
    case RestoreProject(_, p) =>
      assert SameProject(t, t', p) || ProjectRow(p) in x.held;
      assert NoMoreActive(t, t', y.request.owner) || UserRow(y.request.owner) in x.held;
    case AssignOwner(p, _) =>
      assert SameProject(t, t', p) || ProjectRow(p) in x.held;
      assert NoMoreActive(t, t', y.request.destination) || UserRow(y.request.destination) in x.held;
    case ArchiveProject(_, p) =>
      assert SameProject(t, t', p) || ProjectRow(p) in x.held;
    case OperatorArchive(p) =>
      assert SameProject(t, t', p) || ProjectRow(p) in x.held;
    case DeleteProject(_, p, _) =>
      assert SameProject(t, t', p) || ProjectRow(p) in x.held;
      if y.stage in {Changed, Recorded} {
        NoNewDependents(t, t', x.held, x.shared, p);
      }
    case CreateInvitation(_, p) =>
      assert SameProject(t, t', p) || ProjectRow(p) in x.held;
      assert SameInvitation(t, t', y.id) || InvitationRow(y.id) in x.held;
    case Redeem(u, i) =>
      assert SameInvitation(t, t', i) || InvitationRow(i) in x.held;
      assert SameMember(t, t', (y.id, u)) || MemberRow(y.id, u) in x.held;
      assert SameProject(t, t', y.id) || ProjectRow(y.id) in x.held;
    case RevokeInvitation(_, _, i) =>
      assert SameInvitation(t, t', i) || InvitationRow(i) in x.held;
    case RemoveViewer(_, p, u) =>
      assert SameMember(t, t', (p, u)) || MemberRow(p, u) in x.held;
  }

  // ----- Counting active projects -----

  lemma PutProjectCount(projects: map<ProjectId, Project>, p: ProjectId, row: Project, o: UserId)
    ensures
      var counted := p in ActiveProjects(projects, o);
      var counts := row.owner == Some(o) && row.status == Active;
      ActiveCount(projects[p := row], o) ==
      ActiveCount(projects, o) + (if counts && !counted then 1 else if counted && !counts then -1 else 0)
  {
    var before, after := ActiveProjects(projects, o), ActiveProjects(projects[p := row], o);
    if row.owner == Some(o) && row.status == Active {
      assert after == before + {p};
    } else {
      assert after == before - {p};
    }
  }

  lemma DropProjectCount(projects: map<ProjectId, Project>, p: ProjectId, o: UserId)
    ensures ActiveCount(projects - {p}, o) <= ActiveCount(projects, o)
  {
    assert ActiveProjects(projects - {p}, o) == ActiveProjects(projects, o) - {p};
  }

  // ----- Every commit stays within its locks -----

  lemma PutProjectGrowth(t: Tables, p: ProjectId, row: Project)
    ensures forall u: UserId ::
              NoMoreActive(t, ApplyWrite(t, PutProject(p, row)), u) || (row.status == Active && row.owner == Some(u))
  {
    forall u: UserId
      ensures NoMoreActive(t, ApplyWrite(t, PutProject(p, row)), u) || (row.status == Active && row.owner == Some(u))
    {
      PutProjectCount(t.projects, p, row, u);
    }
  }

  lemma PutProjectGuarantees(t: Tables, held: set<Row>, shared: set<Row>, p: ProjectId, row: Project)
    requires ProjectRow(p) in held
    requires row.owner.Some? && row.status == Active ==> UserRow(row.owner.value) in held
    ensures Guarantee(t, ApplyWrite(t, PutProject(p, row)), held, shared)
  {
    PutProjectGrowth(t, p, row);
  }

  lemma PutMemberGuarantees(
    t: Tables, t': Tables, held: set<Row>, shared: set<Row>, p: ProjectId, u: UserId, role: Role)
    requires Guarantee(t, t', held, shared)
    requires MemberRow(p, u) in held && (ProjectRow(p) in held || ProjectRow(p) in shared)
    ensures Guarantee(t, ApplyWrite(t', PutMember(p, u, role)), held, shared)
  {
    assert forall o: UserId :: NoMoreActive(t, ApplyWrite(t', PutMember(p, u, role)), o) == NoMoreActive(t, t', o);
  }

  lemma DropMemberGuarantees(t: Tables, held: set<Row>, shared: set<Row>, p: ProjectId, u: UserId)
    requires MemberRow(p, u) in held
    ensures Guarantee(t, ApplyWrite(t, DropMember(p, u)), held, shared)
  {
    assert forall o: UserId :: NoMoreActive(t, ApplyWrite(t, DropMember(p, u)), o);
  }

  lemma PutInvitationGuarantees(t: Tables, held: set<Row>, shared: set<Row>, i: InvitationId, row: Invitation)
    requires InvitationRow(i) in held
    requires (i in t.invitations && t.invitations[i].project == row.project) || ProjectRow(row.project) in held
    ensures Guarantee(t, ApplyWrite(t, PutInvitation(i, row)), held, shared)
  {
    assert forall u: UserId :: NoMoreActive(t, ApplyWrite(t, PutInvitation(i, row)), u);
  }

  lemma DropProjectGuarantees(t: Tables, held: set<Row>, shared: set<Row>, p: ProjectId)
    requires ProjectRow(p) in held && DependentRows(t, p) <= held
    ensures Guarantee(t, ApplyWrite(t, DropProject(p)), held, shared)
  {
    forall u: UserId
      ensures NoMoreActive(t, ApplyWrite(t, DropProject(p)), u)
    {
      DropProjectCount(t.projects, p, u);
    }
    DroppedRowsWereHeld(t, held, p);
  }

  lemma DroppedRowsWereHeld(t: Tables, held: set<Row>, p: ProjectId)
    requires DependentRows(t, p) <= held
    ensures forall k :: k in t.members && k.0 == p ==> MemberRow(k.0, k.1) in held
    ensures forall i :: i in t.invitations && t.invitations[i].project == p ==> InvitationRow(i) in held
  {
    forall k | k in t.members && k.0 == p
      ensures MemberRow(k.0, k.1) in held
    {
      assert MemberRow(k.0, k.1) in DependentRows(t, p);
    }
    forall i | i in t.invitations && t.invitations[i].project == p
      ensures InvitationRow(i) in held
    {
      assert InvitationRow(i) in DependentRows(t, p);
    }
  }

  lemma RecordGuarantees(t: Tables, t': Tables, held: set<Row>, shared: set<Row>, e: Event)
    requires Guarantee(t, t', held, shared)
    ensures Guarantee(t, ApplyWrite(t', Record(e)), held, shared)
  {
    assert forall o: UserId :: NoMoreActive(t, ApplyWrite(t', Record(e)), o) == NoMoreActive(t, t', o);
  }

  /** Nothing changes when nothing was written. */
  lemma NoWriteGuarantees(t: Tables, held: set<Row>, shared: set<Row>)
    ensures Guarantee(t, t, held, shared)
  {
  }

  lemma CommitGuarantees(limit: nat, t: Tables, x: Transaction)
    requires Knows(limit, t, x) && x.stage in {Recorded, Finished}
    ensures Guarantee(t, Apply(t, x.writes), x.held, x.shared)
  {
    var w := x.writes;
    if |w| == 0 {
      NoWriteGuarantees(t, x.held, x.shared);
    } else if |w| == 1 {
      ApplyOne(t, w[0]);
      PutProjectGuarantees(t, x.held, x.shared, x.id, w[0].project);
    } else if |w| == 2 {
      assert w == [w[0], w[1]];
      ApplyTwo(t, w[0], w[1]);
      match w[0] {
        case PutProject(p, row) => PutProjectGuarantees(t, x.held, x.shared, p, row);
        case DropProject(p) => DropProjectGuarantees(t, x.held, x.shared, p);
        case DropMember(p, u) => DropMemberGuarantees(t, x.held, x.shared, p, u);
        case PutInvitation(i, row) => PutInvitationGuarantees(t, x.held, x.shared, i, row);
      }
      RecordGuarantees(t, ApplyWrite(t, w[0]), x.held, x.shared, w[1].event);
    } else {
      assert w == [w[0], w[1], w[2]];
      ApplyThree(t, w[0], w[1], w[2]);
      match w[0] {
        case PutProject(p, row) => PutProjectGuarantees(t, x.held, x.shared, p, row);
        case PutInvitation(i, row) => PutInvitationGuarantees(t, x.held, x.shared, i, row);
      }
      PutMemberGuarantees(t, ApplyWrite(t, w[0]), x.held, x.shared, w[1].p, w[1].u, w[1].role);
      RecordGuarantees(t, ApplyWrite(ApplyWrite(t, w[0]), w[1]), x.held, x.shared, w[2].event);
    }
  }

  // ----- The invariant of the open transactions -----

  ghost predicate Consistent(limit: nat, s: State) {
    && (forall t :: t in s.open ==> Knows(limit, s.tables, s.open[t]))
    && (forall t, o :: t in s.open && o in s.open && t != o ==> Compatible(s.open[t], s.open[o]))
  }

  /** Every action keeps every open transaction's knowledge true, and the locks exclusive. */
  lemma StepKeepsConsistent(limit: nat, s: State, a: Action, s': State)
    requires Consistent(limit, s) && Step(limit, s, a) == Some(s')
    ensures Consistent(limit, s')
  {
    match a
    case Begin(t, request, now) =>
      BeginKeepsConsistent(limit, s, t, request, now, s');
    case Execute(t, newId) =>
      ExecuteKeepsConsistent(limit, s, t, newId, s');
    case Commit(t) =>
      CommitGuarantees(limit, s.tables, s.open[t]);
      OthersKeepKnowing(limit, s, s', s.open[t]);
    case Abort(t) =>
    case AddUser(u) =>
      UsersDoNotMatter(limit, s, s');
    case SetBlocked(u, blocked) =>
      UsersDoNotMatter(limit, s, s');
  }

  lemma BeginKeepsConsistent(limit: nat, s: State, t: TransactionId, request: Request, now: int, s': State)
    requires Consistent(limit, s) && Step(limit, s, Begin(t, request, now)) == Some(s')
    ensures Consistent(limit, s')
  {
    var x := s'.open[t];
    assert x.held == {} && x.shared == {} && Knows(limit, s'.tables, x);
    assert forall o :: o in s'.open && o != t ==> s'.open[o] == s.open[o];
  }

  lemma ExecuteKeepsConsistent(limit: nat, s: State, t: TransactionId, newId: nat, s': State)
    requires Consistent(limit, s) && Step(limit, s, Execute(t, newId)) == Some(s')
    ensures Consistent(limit, s')
  {
    match Statement(limit, s, t, newId)
    case Throw =>
    case Go(y) =>
      StatementKeeps(limit, s, t, newId, y);
      forall o | o in s.open && o != t
        ensures Compatible(y, s.open[o]) && Compatible(s.open[o], y)
      {
        assert Compatible(s.open[t], s.open[o]);
      }
  }

  lemma OthersKeepKnowing(limit: nat, s: State, s': State, x: Transaction)
    requires Consistent(limit, s) && Guarantee(s.tables, s'.tables, x.held, x.shared)
    requires forall o :: o in s'.open ==> o in s.open && s'.open[o] == s.open[o] && Compatible(x, s.open[o])
    ensures Consistent(limit, s')
  {
    forall o | o in s'.open
      ensures Knows(limit, s'.tables, s'.open[o])
    {
      OthersStillKnow(limit, s.tables, s'.tables, x, s.open[o]);
    }
  }

  lemma UsersDoNotMatter(limit: nat, s: State, s': State)
    requires Consistent(limit, s) && s'.open == s.open && s'.tables == s.tables.(users := s'.tables.users)
    ensures Consistent(limit, s')
  {
    var nobody := Transaction(CreateUnowned(""), 0, Begun, {}, {}, [], 0, false);
    assert forall u: UserId :: NoMoreActive(s.tables, s'.tables, u);
    OthersKeepKnowing(limit, s, s', nobody);
  }
}
