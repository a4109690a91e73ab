/** The control plane's transactions on projects, memberships and invitations, one SQL statement at a time.

    The tables hold committed rows. A transaction keeps the rows it has locked and the writes it has buffered; the
    writes reach the tables only when it commits. A locking statement on a row that another transaction has locked
    waits, and reads the committed row once the lock is free. No statement here reads a row that its own transaction
    has written, except the foreign-key check of a membership on a project inserted just before. */
module ControlPlane {
  import opened Wrappers

  type UserId = nat
  type ProjectId = nat
  type InvitationId = nat
  type TransactionId = nat

  datatype Status = Active | Archived
  datatype Role = Owner | Viewer
  datatype User = User(blocked: bool)
  datatype Project = Project(owner: Option<UserId>, status: Status, name: string, createKey: Option<nat>)
  datatype Invitation =
    Invitation(project: ProjectId, createdBy: UserId, expiresAt: int, redeemedBy: Option<UserId>, revoked: bool)

  datatype Event =
    | Created(project: ProjectId)
    | ArchivedEvent(project: ProjectId)
    | Restored(project: ProjectId)
    | Deleted(project: ProjectId)
    | OwnerAssigned(project: ProjectId, user: UserId)
    | InvitationCreated(project: ProjectId, invitation: InvitationId)
    | InvitationRevoked(project: ProjectId, invitation: InvitationId)
    | InvitationRedeemed(project: ProjectId, invitation: InvitationId, user: UserId)
    | ViewerRemoved(project: ProjectId, user: UserId)

  /** `seen` and `issued` are the identifiers of all projects and invitations ever committed: generated identifiers
      are never used twice. */
  datatype Tables = Tables(
    users: map<UserId, User>,
    projects: map<ProjectId, Project>,
    members: map<(ProjectId, UserId), Role>,
    invitations: map<InvitationId, Invitation>,
    log: seq<Event>,
    seen: set<ProjectId>,
    issued: set<InvitationId>)

  /** The rows that locks protect. A member row stands for the entry of the unique index as well. */
  datatype Row = UserRow(u: UserId) | ProjectRow(p: ProjectId) | MemberRow(p: ProjectId, u: UserId) | InvitationRow(i: InvitationId)

  datatype Write =
    | PutProject(p: ProjectId, project: Project)
    | DropProject(p: ProjectId)
    | PutMember(p: ProjectId, u: UserId, role: Role)
    | DropMember(p: ProjectId, u: UserId)
    | PutInvitation(i: InvitationId, invitation: Invitation)
    | Record(event: Event)

  datatype Request =
    | CreateProject(owner: UserId, name: string, key: nat)
    | CreateUnowned(name: string)
    | ArchiveProject(owner: UserId, p: ProjectId)
    | RestoreProject(owner: UserId, p: ProjectId)
    | DeleteProject(owner: UserId, p: ProjectId, confirmName: string)
    | OperatorArchive(p: ProjectId)
    | AssignOwner(p: ProjectId, destination: UserId)
    | CreateInvitation(owner: UserId, p: ProjectId)
    | Redeem(user: UserId, i: InvitationId)
    | RevokeInvitation(owner: UserId, p: ProjectId, i: InvitationId)
    | RemoveViewer(owner: UserId, p: ProjectId, user: UserId)

  /** The statement that a transaction executed last. `Finished` is the return without writes of a repeated
      creation. */
  datatype Stage =
    | Begun | UserLocked | InvitationLocked | ProjectLocked | MembershipRead | Checked | LimitChecked
    | Changed | MemberChanged | Recorded | Finished

  /** `id` is the identifier that an insertion generated, or the project of a locked invitation, and `isMember` the
      answer of the membership lookup of a redemption. `shared` are the rows locked by foreign-key checks. */
  datatype Transaction = Transaction(
    request: Request, now: int, stage: Stage, held: set<Row>, shared: set<Row>, writes: seq<Write>, id: nat, isMember: bool)

  datatype State = State(tables: Tables, open: map<TransactionId, Transaction>)

  const INVITATION_LIFETIME_MS := 7 * 24 * 60 * 60 * 1_000

  // ----- Committed rows -----

  function ApplyWrite(t: Tables, w: Write): Tables {
    match w
    case PutProject(p, project) => t.(projects := t.projects[p := project], seen := t.seen + {p})
    case DropProject(p) =>
      t.(projects := t.projects - {p},
         members := map k | k in t.members && k.0 != p :: t.members[k],
         invitations := map i | i in t.invitations && t.invitations[i].project != p :: t.invitations[i])
    case PutMember(p, u, role) => t.(members := t.members[(p, u) := role])
    case DropMember(p, u) => t.(members := t.members - {(p, u)})
    case PutInvitation(i, invitation) => t.(invitations := t.invitations[i := invitation], issued := t.issued + {i})
    case Record(event) => t.(log := t.log + [event])
  }

  function Apply(t: Tables, writes: seq<Write>): Tables
    decreases |writes|
  {
    if writes == [] then t else Apply(ApplyWrite(t, writes[0]), writes[1..])
  }

  lemma ApplyOne(t: Tables, a: Write)
    ensures Apply(t, [a]) == ApplyWrite(t, a)
  {
    assert [a][1..] == [];
  }

  lemma ApplyTwo(t: Tables, a: Write, b: Write)
    ensures Apply(t, [a, b]) == ApplyWrite(ApplyWrite(t, a), b)
  {
    assert [a, b][1..] == [b];
    ApplyOne(ApplyWrite(t, a), b);
  }

  lemma ApplyThree(t: Tables, a: Write, b: Write, c: Write)
    ensures Apply(t, [a, b, c]) == ApplyWrite(ApplyWrite(ApplyWrite(t, a), b), c)
  {
    assert [a, b, c][1..] == [b, c];
    ApplyTwo(ApplyWrite(t, a), b, c);
  }

  function ActiveProjects(projects: map<ProjectId, Project>, owner: UserId): set<ProjectId> {
    set p | p in projects && projects[p].owner == Some(owner) && projects[p].status == Active
  }

  function ActiveCount(projects: map<ProjectId, Project>, owner: UserId): nat {
    |ActiveProjects(projects, owner)|
  }

  // ----- Locks -----

  predicate Free(s: State, t: TransactionId, row: Row) {
    forall o :: o in s.open && o != t ==> row !in s.open[o].held && row !in s.open[o].shared
  }

  predicate FreeForShare(s: State, t: TransactionId, row: Row) {
    forall o :: o in s.open && o != t ==> row !in s.open[o].held
  }

  // ----- Statements -----

  datatype Outcome = Wait | Throw | Go(next: Transaction)

  function Locked(s: State, t: TransactionId, x: Transaction, row: Row, stage: Stage): Outcome {
    if Free(s, t, row) then Go(x.(stage := stage, held := x.held + {row})) else Wait
  }

  predicate OwnedBy(t: Tables, p: ProjectId, owner: UserId) {
    p in t.projects && t.projects[p].owner == Some(owner)
  }

  predicate Pending(invitation: Invitation, now: int) {
    invitation.redeemedBy == None && !invitation.revoked && invitation.expiresAt > now
  }

  /** The limit test; a limit of zero means no limit. */
  predicate WithinLimit(limit: nat, t: Tables, owner: UserId) {
    limit == 0 || ActiveCount(t.projects, owner) < limit
  }

  /** The unique index on an owner and a creation key, which ignores missing keys. */
  predicate KeyTaken(t: Tables, owner: UserId, key: Option<nat>) {
    key.Some? && exists p :: p in t.projects && t.projects[p].owner == Some(owner) && t.projects[p].createKey == key
  }

  /** Writes one row under locks that the transaction takes or holds. */
  function Writing(s: State, t: TransactionId, x: Transaction, rows: set<Row>, w: Write, stage: Stage): Outcome {
    if forall row :: row in rows ==> Free(s, t, row)
    then Go(x.(stage := stage, held := x.held + rows, writes := x.writes + [w]))
    else Wait
  }

  /** Inserts a membership: the foreign key needs the project, and the unique index refuses a second row. */
  function InsertMember(s: State, t: TransactionId, x: Transaction, p: ProjectId, u: UserId, role: Role): Outcome {
    if !FreeForShare(s, t, ProjectRow(p)) || !Free(s, t, MemberRow(p, u)) then Wait
    else if p !in s.tables.projects && !(exists w :: w in x.writes && w.PutProject? && w.p == p) then Throw
    else if (p, u) in s.tables.members then Throw
    else Go(x.(stage := MemberChanged, held := x.held + {MemberRow(p, u)}, shared := x.shared + {ProjectRow(p)},
               writes := x.writes + [PutMember(p, u, role)]))
  }

  function Recording(x: Transaction, event: Event): Outcome {
    Go(x.(stage := Recorded, writes := x.writes + [Record(event)]))
  }

  function StepCreateProject(limit: nat, s: State, t: TransactionId, x: Transaction, newId: nat): Outcome
    requires x.request.CreateProject?
  {
    var r, tables := x.request, s.tables;
    match x.stage
    case Begun => if r.owner !in tables.users then Throw else Locked(s, t, x, UserRow(r.owner), UserLocked)
    case UserLocked =>
      if KeyTaken(tables, r.owner, Some(r.key)) then Go(x.(stage := Finished)) else Go(x.(stage := Checked))
    case Checked => if WithinLimit(limit, tables, r.owner) then Go(x.(stage := LimitChecked)) else Throw
    case LimitChecked =>
      if newId in tables.seen then Wait
      else if KeyTaken(tables, r.owner, Some(r.key)) then Throw
      else
        var project := Project(Some(r.owner), Active, r.name, Some(r.key));
        Writing(s, t, x.(id := newId), {ProjectRow(newId)}, PutProject(newId, project), Changed)
    case Changed => InsertMember(s, t, x, x.id, r.owner, Owner)
    case MemberChanged => Recording(x, Created(x.id))
    case _ => Wait
  }

  function StepCreateUnowned(s: State, t: TransactionId, x: Transaction, newId: nat): Outcome
    requires x.request.CreateUnowned?
  {
    if x.stage == Begun && newId !in s.tables.seen then
      var project := Project(None, Active, x.request.name, None);
      Writing(s, t, x.(id := newId), {ProjectRow(newId)}, PutProject(newId, project), Recorded)
    else Wait
  }

  function StepArchiveProject(s: State, t: TransactionId, x: Transaction): Outcome
    requires x.request.ArchiveProject?
  {
    var r, tables := x.request, s.tables;
    match x.stage
    case Begun => if !OwnedBy(tables, r.p, r.owner) then Throw else Locked(s, t, x, ProjectRow(r.p), Checked)
    case Checked =>
      if !OwnedBy(tables, r.p, r.owner) || tables.projects[r.p].status != Active then Throw
      else Writing(s, t, x, {ProjectRow(r.p)}, PutProject(r.p, tables.projects[r.p].(status := Archived)), Changed)
    case Changed => Recording(x, ArchivedEvent(r.p))
    case _ => Wait
  }

  function StepOperatorArchive(s: State, t: TransactionId, x: Transaction): Outcome
    requires x.request.OperatorArchive?
  {
    var r, tables := x.request, s.tables;
    match x.stage
    case Begun => if r.p !in tables.projects then Throw else Locked(s, t, x, ProjectRow(r.p), Checked)
    case Checked =>
      if r.p !in tables.projects || tables.projects[r.p].status != Active then Throw
      else Writing(s, t, x, {ProjectRow(r.p)}, PutProject(r.p, tables.projects[r.p].(status := Archived)), Changed)
    case Changed => Recording(x, ArchivedEvent(r.p))
    case _ => Wait
  }

  function StepRestoreProject(limit: nat, s: State, t: TransactionId, x: Transaction): Outcome
    requires x.request.RestoreProject?
  {
    var r, tables := x.request, s.tables;
    match x.stage
    case Begun => if r.owner !in tables.users then Throw else Locked(s, t, x, UserRow(r.owner), UserLocked)
    case UserLocked => if !OwnedBy(tables, r.p, r.owner) then Throw else Locked(s, t, x, ProjectRow(r.p), ProjectLocked)
    case ProjectLocked =>
      if !OwnedBy(tables, r.p, r.owner) || tables.projects[r.p].status != Archived || !WithinLimit(limit, tables, r.owner)
      then Throw else Go(x.(stage := LimitChecked))
    case LimitChecked =>
      if !OwnedBy(tables, r.p, r.owner) || tables.projects[r.p].status != Archived then Throw
      else Writing(s, t, x, {ProjectRow(r.p)}, PutProject(r.p, tables.projects[r.p].(status := Active)), Changed)
    case Changed => Recording(x, Restored(r.p))
    case _ => Wait
  }

  /** Deleting a project cascades to its memberships and invitations, whose rows it locks. */
  function StepDeleteProject(s: State, t: TransactionId, x: Transaction): Outcome
    requires x.request.DeleteProject?
  {
    var r, tables := x.request, s.tables;
    match x.stage
    case Begun => if !OwnedBy(tables, r.p, r.owner) then Throw else Locked(s, t, x, ProjectRow(r.p), Checked)
    case Checked =>
      if !OwnedBy(tables, r.p, r.owner) || r.confirmName != tables.projects[r.p].name then Throw
      else Writing(s, t, x, {ProjectRow(r.p)} + DependentRows(tables, r.p), DropProject(r.p), Changed)
    case Changed => Recording(x, Deleted(r.p))
    case _ => Wait
  }

  function DependentRows(t: Tables, p: ProjectId): set<Row> {
    (set k | k in t.members && k.0 == p :: MemberRow(p, k.1))
    + (set i | i in t.invitations && t.invitations[i].project == p :: InvitationRow(i))
  }

  function StepAssignOwner(limit: nat, s: State, t: TransactionId, x: Transaction): Outcome
    requires x.request.AssignOwner?
  {
    var r, tables := x.request, s.tables;
    match x.stage
    case Begun => if r.destination !in tables.users then Throw else Locked(s, t, x, UserRow(r.destination), UserLocked)
    case UserLocked =>
      if r.destination !in tables.users || tables.users[r.destination].blocked then Throw
      else if !Ownerless(tables, r.p) then Throw
      else Go(x.(stage := Checked))
    case Checked => if r.p !in tables.projects then Throw else Locked(s, t, x, ProjectRow(r.p), ProjectLocked)
    case ProjectLocked =>
      if !Ownerless(tables, r.p) then Throw
      else if tables.projects[r.p].status == Active && !WithinLimit(limit, tables, r.destination) then Throw
      else Go(x.(stage := LimitChecked))
    case LimitChecked =>
      if !Ownerless(tables, r.p) || KeyTaken(tables, r.destination, tables.projects[r.p].createKey) then Throw
      else
        var project := tables.projects[r.p].(owner := Some(r.destination));
        Writing(s, t, x, {ProjectRow(r.p)}, PutProject(r.p, project), Changed)
    case Changed => InsertMember(s, t, x, r.p, r.destination, Owner)
    case MemberChanged => Recording(x, OwnerAssigned(r.p, r.destination))
    case _ => Wait
  }

  predicate Ownerless(t: Tables, p: ProjectId) {
    p in t.projects && t.projects[p].owner == None
  }

  function StepCreateInvitation(s: State, t: TransactionId, x: Transaction, newId: nat): Outcome
    requires x.request.CreateInvitation?
  {
    var r, tables := x.request, s.tables;
    match x.stage
    case Begun => if !OwnedBy(tables, r.p, r.owner) then Throw else Locked(s, t, x, ProjectRow(r.p), ProjectLocked)
    case ProjectLocked =>
      if newId in tables.issued then Wait
      else
        var invitation := Invitation(r.p, r.owner, x.now + INVITATION_LIFETIME_MS, None, false);
        Writing(s, t, x.(id := newId), {InvitationRow(newId)}, PutInvitation(newId, invitation), Changed)
    case Changed => Recording(x, InvitationCreated(r.p, x.id))
    case _ => Wait
  }

  /** A token stands for the invitation whose digest it has. The two lookups are separate statements. */
  function StepRedeem(s: State, t: TransactionId, x: Transaction): Outcome
    requires x.request.Redeem?
  {
    var r, tables := x.request, s.tables;
    match x.stage
    case Begun =>
      if r.i !in tables.invitations || !Pending(tables.invitations[r.i], x.now) then Throw
      else Locked(s, t, x.(id := tables.invitations[r.i].project), InvitationRow(r.i), InvitationLocked)
    case InvitationLocked => Go(x.(stage := MembershipRead, isMember := (x.id, r.user) in tables.members))
    case MembershipRead => if x.isMember || OwnedBy(tables, x.id, r.user) then Throw else Go(x.(stage := Checked))
    case Checked =>
      if r.i !in tables.invitations || !Pending(tables.invitations[r.i], x.now) then Throw
      else
        var claimed := tables.invitations[r.i].(redeemedBy := Some(r.user));
        Writing(s, t, x, {InvitationRow(r.i)}, PutInvitation(r.i, claimed), Changed)
    case Changed => InsertMember(s, t, x, x.id, r.user, Viewer)
    case MemberChanged => Recording(x, InvitationRedeemed(x.id, r.i, r.user))
    case _ => Wait
  }

  function StepRevokeInvitation(s: State, t: TransactionId, x: Transaction): Outcome
    requires x.request.RevokeInvitation?
  {
    var r, tables := x.request, s.tables;
    match x.stage
    case Begun => if !OwnedBy(tables, r.p, r.owner) then Throw else Locked(s, t, x, ProjectRow(r.p), ProjectLocked)
    case ProjectLocked =>
      if r.i !in tables.invitations || tables.invitations[r.i].project != r.p || !Pending(tables.invitations[r.i], x.now)
      then Throw
      else Writing(s, t, x, {InvitationRow(r.i)}, PutInvitation(r.i, tables.invitations[r.i].(revoked := true)), Changed)
    case Changed => Recording(x, InvitationRevoked(r.p, r.i))
    case _ => Wait
  }

  function StepRemoveViewer(s: State, t: TransactionId, x: Transaction): Outcome
    requires x.request.RemoveViewer?
  {
    var r, tables := x.request, s.tables;
    match x.stage
    case Begun => if !OwnedBy(tables, r.p, r.owner) then Throw else Locked(s, t, x, ProjectRow(r.p), ProjectLocked)
    case ProjectLocked =>
      if (r.p, r.user) !in tables.members || tables.members[(r.p, r.user)] != Viewer then Throw
      else Writing(s, t, x, {MemberRow(r.p, r.user)}, DropMember(r.p, r.user), Changed)
    case Changed => Recording(x, ViewerRemoved(r.p, r.user))
    case _ => Wait
  }

  function Statement(limit: nat, s: State, t: TransactionId, newId: nat): Outcome
    requires t in s.open
  {
    var x := s.open[t];
    match x.request
    case CreateProject(_, _, _) => StepCreateProject(limit, s, t, x, newId)
    case CreateUnowned(_) => StepCreateUnowned(s, t, x, newId)
    case ArchiveProject(_, _) => StepArchiveProject(s, t, x)
    case RestoreProject(_, _) => StepRestoreProject(limit, s, t, x)
    case DeleteProject(_, _, _) => StepDeleteProject(s, t, x)
    case OperatorArchive(_) => StepOperatorArchive(s, t, x)
    case AssignOwner(_, _) => StepAssignOwner(limit, s, t, x)
    case CreateInvitation(_, _) => StepCreateInvitation(s, t, x, newId)
    case Redeem(_, _) => StepRedeem(s, t, x)
    case RevokeInvitation(_, _, _) => StepRevokeInvitation(s, t, x)
    case RemoveViewer(_, _, _) => StepRemoveViewer(s, t, x)
  }

  // ----- The machine -----

  /** `Environment` actions stand for logins, and for the blocking transactions, which lock the user's row. */
  datatype Action =
    | Begin(t: TransactionId, request: Request, now: int)
    | Execute(t: TransactionId, newId: nat)
    | Commit(t: TransactionId)
    | Abort(t: TransactionId)
    | AddUser(u: UserId)
    | SetBlocked(u: UserId, blocked: bool)

  /** The next state, or nothing when the action cannot happen now. A thrown error rolls back. */
  function Step(limit: nat, s: State, a: Action): Option<State> {
    match a
    case Begin(t, request, now) =>
      if t in s.open || (request.AssignOwner? && !Ownerless(s.tables, request.p)) then None
      else Some(s.(open := s.open[t := Transaction(request, now, Begun, {}, {}, [], 0, false)]))
    case Execute(t, newId) =>
      if t !in s.open then None
      else
        (match Statement(limit, s, t, newId)
         case Wait => None
         case Throw => Some(s.(open := s.open - {t}))
         case Go(x) => Some(s.(open := s.open[t := x])))
    case Commit(t) =>
      if t !in s.open || (s.open[t].stage != Recorded && s.open[t].stage != Finished) then None
      else Some(State(Apply(s.tables, s.open[t].writes), s.open - {t}))
    case Abort(t) => if t in s.open then Some(s.(open := s.open - {t})) else None
    case AddUser(u) =>
      if u in s.tables.users then None
      else Some(s.(tables := s.tables.(users := s.tables.users[u := User(false)])))
    case SetBlocked(u, blocked) =>
      if u !in s.tables.users || exists o :: o in s.open && UserRow(u) in s.open[o].held then None
      else Some(s.(tables := s.tables.(users := s.tables.users[u := User(blocked)])))
  }

  /** A run: every action is possible where it happens. */
  ghost predicate IsRun(limit: nat, states: seq<State>, actions: seq<Action>) {
    && |states| == |actions| + 1
    && forall k :: 0 <= k < |actions| ==> Step(limit, states[k], actions[k]) == Some(states[k + 1])
  }
}
