/** What each control-plane transaction does when nothing interferes: its statements, run to the end and committed,
    have exactly the effect that the service promises, or throw exactly when it promises an error. */
module ControlPlaneAlone {
  import opened Wrappers
  import opened ControlPlane

  /** The statements of a lone transaction, one after the other, and then its commit. */
  function RunAlone(limit: nat, tables: Tables, x: Transaction, newId: nat, fuel: nat): Option<Tables>
    decreases fuel
  {
    if x.stage == Recorded || x.stage == Finished then Some(Apply(tables, x.writes))
    else if fuel == 0 then None
    else
      match Statement(limit, State(tables, map[0 := x]), 0, newId)
      case Wait => None
      case Throw => None
      case Go(next) => RunAlone(limit, tables, next, newId, fuel - 1)
  }

  function Started(request: Request, now: int): Transaction {
    Transaction(request, now, Begun, {}, {}, [], 0, false)
  }

  /** The longest transaction executes seven statements. */
  function Alone(limit: nat, tables: Tables, request: Request, now: int, newId: nat): Option<Tables> {
    RunAlone(limit, tables, Started(request, now), newId, 7)
  }

  // ----- The promised effects, in one step -----

  function WithProject(t: Tables, p: ProjectId, row: Project, e: Event): Tables {
    t.(projects := t.projects[p := row], seen := t.seen + {p}, log := t.log + [e])
  }

  function WithOwnedProject(t: Tables, p: ProjectId, row: Project, o: UserId, e: Event): Tables {
    WithProject(t, p, row, e).(members := t.members[(p, o) := Owner])
  }

  /** The owner has fewer active projects than the limit, or there is no limit. */
  predicate HasRoom(limit: nat, t: Tables, o: UserId) {
    limit == 0 || |set p | p in t.projects && t.projects[p].owner == Some(o) && t.projects[p].status == Active| < limit
  }

  /** The owner has a project with the creation key. */
  predicate HasProjectWithKey(t: Tables, o: UserId, key: nat) {
    exists p :: p in t.projects && t.projects[p].owner == Some(o) && t.projects[p].createKey == Some(key)
  }

  predicate IsOwner(t: Tables, p: ProjectId, o: UserId) {
    p in t.projects && t.projects[p].owner == Some(o)
  }

  /** Neither redeemed nor revoked, and before its expiry. */
  predicate IsLive(t: Tables, i: InvitationId, now: int) {
    && i in t.invitations
    && t.invitations[i].redeemedBy.None? && !t.invitations[i].revoked && now < t.invitations[i].expiresAt
  }

  function CreateEffect(limit: nat, t: Tables, owner: UserId, name: string, key: nat, newId: nat): Option<Tables> {
    if owner !in t.users then None
    else if HasProjectWithKey(t, owner, key) then Some(t)
    else if !HasRoom(limit, t, owner) then None
    else Some(WithOwnedProject(t, newId, Project(Some(owner), Active, name, Some(key)), owner, Created(newId)))
  }

  function ArchiveEffect(t: Tables, p: ProjectId, allowed: bool): Option<Tables>
    requires allowed ==> p in t.projects
  {
    if !allowed || t.projects[p].status != Active then None
    else Some(WithProject(t, p, t.projects[p].(status := Archived), ArchivedEvent(p)))
  }

  function RestoreEffect(limit: nat, t: Tables, owner: UserId, p: ProjectId): Option<Tables> {
    if owner !in t.users || !IsOwner(t, p, owner) || t.projects[p].status != Archived || !HasRoom(limit, t, owner) then None
    else Some(WithProject(t, p, t.projects[p].(status := Active), Restored(p)))
  }

  function AssignEffect(limit: nat, t: Tables, p: ProjectId, destination: UserId): Option<Tables> {
    if destination !in t.users || t.users[destination].blocked then None
    else if p !in t.projects || t.projects[p].owner.Some? || (p, destination) in t.members then None
    else if t.projects[p].status == Active && !HasRoom(limit, t, destination) then None
    else if t.projects[p].createKey.Some? && HasProjectWithKey(t, destination, t.projects[p].createKey.value) then None
    else
      Some(WithOwnedProject(t, p, t.projects[p].(owner := Some(destination)), destination, OwnerAssigned(p, destination)))
  }

  function DeleteEffect(t: Tables, owner: UserId, p: ProjectId, confirmName: string): Option<Tables> {
    if !IsOwner(t, p, owner) || confirmName != t.projects[p].name then None
    else
      Some(t.(projects := t.projects - {p},
              members := map k | k in t.members && k.0 != p :: t.members[k],
              invitations := map i | i in t.invitations && t.invitations[i].project != p :: t.invitations[i],
              log := t.log + [Deleted(p)]))
  }

  function InviteEffect(t: Tables, owner: UserId, p: ProjectId, now: int, newId: nat): Option<Tables> {
    if !IsOwner(t, p, owner) then None
    else
      var invitation := Invitation(p, owner, now + 7 * 24 * 60 * 60 * 1_000, None, false);
      Some(t.(invitations := t.invitations[newId := invitation], issued := t.issued + {newId},
              log := t.log + [InvitationCreated(p, newId)]))
  }

  function RedeemEffect(t: Tables, user: UserId, i: InvitationId, now: int): Option<Tables> {
    if !IsLive(t, i, now) then None
    else
      var p := t.invitations[i].project;
      if (p, user) in t.members || p !in t.projects || t.projects[p].owner == Some(user) then None
      else
        Some(t.(invitations := t.invitations[i := t.invitations[i].(redeemedBy := Some(user))], issued := t.issued + {i},
                members := t.members[(p, user) := Viewer], log := t.log + [InvitationRedeemed(p, i, user)]))
  }

  function RevokeEffect(t: Tables, owner: UserId, p: ProjectId, i: InvitationId, now: int): Option<Tables> {
    if !IsOwner(t, p, owner) || !IsLive(t, i, now) || t.invitations[i].project != p then None
    else
      Some(t.(invitations := t.invitations[i := t.invitations[i].(revoked := true)], issued := t.issued + {i},
              log := t.log + [InvitationRevoked(p, i)]))
  }

  function RemoveEffect(t: Tables, owner: UserId, p: ProjectId, user: UserId): Option<Tables> {
    if !IsOwner(t, p, owner) || (p, user) !in t.members || t.members[(p, user)] != Viewer then None
    else Some(t.(members := t.members - {(p, user)}, log := t.log + [ViewerRemoved(p, user)]))
  }

  function Effect(limit: nat, t: Tables, request: Request, now: int, newId: nat): Option<Tables> {
    match request
    case CreateProject(owner, name, key) => CreateEffect(limit, t, owner, name, key, newId)
    case CreateUnowned(name) =>
      Some(t.(projects := t.projects[newId := Project(None, Active, name, None)], seen := t.seen + {newId}))
    case ArchiveProject(owner, p) => ArchiveEffect(t, p, IsOwner(t, p, owner))
    case OperatorArchive(p) => ArchiveEffect(t, p, p in t.projects)
    case RestoreProject(owner, p) => RestoreEffect(limit, t, owner, p)
    case DeleteProject(owner, p, confirmName) => DeleteEffect(t, owner, p, confirmName)
    case AssignOwner(p, destination) => AssignEffect(limit, t, p, destination)
    case CreateInvitation(owner, p) => InviteEffect(t, owner, p, now, newId)
    case Redeem(user, i) => RedeemEffect(t, user, i, now)
    case RevokeInvitation(owner, p, i) => RevokeEffect(t, owner, p, i, now)
    case RemoveViewer(owner, p, user) => RemoveEffect(t, owner, p, user)
  }

  /** The promises are stated with predicates of their own; the statements test the same. */
  lemma TestsAgree(limit: nat, t: Tables)
    ensures forall o: UserId :: WithinLimit(limit, t, o) <==> HasRoom(limit, t, o)
    ensures forall o: UserId, key: nat :: KeyTaken(t, o, Some(key)) <==> HasProjectWithKey(t, o, key)
    ensures forall o: UserId :: !KeyTaken(t, o, None)
    ensures forall p: ProjectId, o: UserId :: OwnedBy(t, p, o) <==> IsOwner(t, p, o)
    ensures forall i, now :: i in t.invitations ==> (Pending(t.invitations[i], now) <==> IsLive(t, i, now))
  {
    forall o: UserId
      ensures WithinLimit(limit, t, o) <==> HasRoom(limit, t, o)
    {
      assert ActiveProjects(t.projects, o) ==
             set p | p in t.projects && t.projects[p].owner == Some(o) && t.projects[p].status == Active;
    }
  }

  // ----- Single statements -----

  function Next(limit: nat, t: Tables, x: Transaction, newId: nat): Outcome {
    Statement(limit, State(t, map[0 := x]), 0, newId)
  }

  predicate InProgress(x: Transaction) {
    x.stage != Recorded && x.stage != Finished
  }

  lemma NoRivals(t: Tables, x: Transaction)
    ensures forall row :: Free(State(t, map[0 := x]), 0, row) && FreeForShare(State(t, map[0 := x]), 0, row)
  {
  }

  lemma Proceeds(limit: nat, t: Tables, x: Transaction, newId: nat, fuel: nat)
    requires InProgress(x) && fuel > 0
    ensures RunAlone(limit, t, x, newId, fuel) ==
            if Next(limit, t, x, newId).Go? then RunAlone(limit, t, Next(limit, t, x, newId).next, newId, fuel - 1) else None
  {
  }

  // ----- The last statements: membership and audit record -----

  predicate AddsMember(r: Request) {
    r.CreateProject? || r.AssignOwner? || r.Redeem?
  }

  function FinalEvent(x: Transaction): Event
    requires !x.request.CreateUnowned?
  {
    match x.request
    case CreateProject(_, _, _) => Created(x.id)
    case ArchiveProject(_, p) => ArchivedEvent(p)
    case OperatorArchive(p) => ArchivedEvent(p)
    case RestoreProject(_, p) => Restored(p)
    case DeleteProject(_, p, _) => Deleted(p)
    case AssignOwner(p, destination) => OwnerAssigned(p, destination)
    case CreateInvitation(_, p) => InvitationCreated(p, x.id)
    case Redeem(user, i) => InvitationRedeemed(x.id, i, user)
    case RevokeInvitation(_, p, i) => InvitationRevoked(p, i)
    case RemoveViewer(_, p, user) => ViewerRemoved(p, user)
  }

  lemma RecordsLast(limit: nat, t: Tables, x: Transaction, newId: nat, fuel: nat)
    requires fuel > 0 && !x.request.CreateUnowned?
    requires x.stage == if AddsMember(x.request) then MemberChanged else Changed
    ensures RunAlone(limit, t, x, newId, fuel) == Some(Apply(t, x.writes + [Record(FinalEvent(x))]))
  {
    Proceeds(limit, t, x, newId, fuel);
  }

  function NewMember(x: Transaction): (m: (ProjectId, UserId, Role))
    requires AddsMember(x.request)
  {
    match x.request
    case CreateProject(owner, _, _) => (x.id, owner, Owner)
    case AssignOwner(p, destination) => (p, destination, Owner)
    case Redeem(user, _) => (x.id, user, Viewer)
  }

  lemma AddsMemberThenRecords(limit: nat, t: Tables, x: Transaction, newId: nat, fuel: nat)
    requires fuel > 1 && AddsMember(x.request) && x.stage == Changed
    ensures
      var (p, u, role) := NewMember(x);
      var present := p in t.projects || exists w :: w in x.writes && w.PutProject? && w.p == p;
      RunAlone(limit, t, x, newId, fuel) ==
      if present && (p, u) !in t.members then Some(Apply(t, x.writes + [PutMember(p, u, role)] + [Record(FinalEvent(x))])) else None
  {
    NoRivals(t, x);
    Proceeds(limit, t, x, newId, fuel);
    if Next(limit, t, x, newId).Go? {
      RecordsLast(limit, t, Next(limit, t, x, newId).next, newId, fuel - 1);
    }
  }

  lemma AddsMemberToOneWrite(limit: nat, t: Tables, x: Transaction, newId: nat, fuel: nat, put: Write)
    requires fuel > 1 && AddsMember(x.request) && x.stage == Changed && x.writes == [put]
    ensures
      var (p, u, role) := NewMember(x);
      var present := p in t.projects || (put.PutProject? && put.p == p);
      RunAlone(limit, t, x, newId, fuel) ==
      if present && (p, u) !in t.members
      then Some(ApplyWrite(ApplyWrite(ApplyWrite(t, put), PutMember(p, u, role)), Record(FinalEvent(x)))) else None
  {
    var (p, u, role) := NewMember(x);
    var putMember, record := PutMember(p, u, role), Record(FinalEvent(x));
    AddsMemberThenRecords(limit, t, x, newId, fuel);
    assert put in x.writes && [put] + [putMember] + [record] == [put, putMember, record];
    ApplyThree(t, put, putMember, record);
  }

  // ----- Each transaction -----

  lemma ArchiveAlone(limit: nat, t: Tables, request: Request, p: ProjectId, now: int, newId: nat)
    requires (request.ArchiveProject? || request.OperatorArchive?) && request.p == p
    ensures Alone(limit, t, request, now, newId) == Effect(limit, t, request, now, newId)
  {
    var x := Started(request, now);
    NoRivals(t, x);
    Proceeds(limit, t, x, newId, 7);
    if Next(limit, t, x, newId).Go? {
      var y := Next(limit, t, x, newId).next;
      NoRivals(t, y);
      Proceeds(limit, t, y, newId, 6);
      if Next(limit, t, y, newId).Go? {
        var z := Next(limit, t, y, newId).next;
        RecordsLast(limit, t, z, newId, 5);
        ApplyTwo(t, z.writes[0], Record(FinalEvent(z)));
      }
    }
  }

  lemma RestoreAlone(limit: nat, t: Tables, owner: UserId, p: ProjectId, now: int, newId: nat)
    ensures Alone(limit, t, RestoreProject(owner, p), now, newId) == RestoreEffect(limit, t, owner, p)
  {
    var x := Started(RestoreProject(owner, p), now);
    NoRivals(t, x);
    Proceeds(limit, t, x, newId, 7);
    if owner in t.users {
      var y := Next(limit, t, x, newId).next;
      NoRivals(t, y);
      Proceeds(limit, t, y, newId, 6);
      if OwnedBy(t, p, owner) {
        RestoreFromLock(limit, t, Next(limit, t, y, newId).next, newId);
      }
    }
  }

  lemma RestoreFromLock(limit: nat, t: Tables, x: Transaction, newId: nat)
    requires x.request.RestoreProject? && x.stage == ProjectLocked && x.writes == []
    requires x.request.owner in t.users && OwnedBy(t, x.request.p, x.request.owner)
    ensures RunAlone(limit, t, x, newId, 5) == RestoreEffect(limit, t, x.request.owner, x.request.p)
  {
    TestsAgree(limit, t);
    Proceeds(limit, t, x, newId, 5);
    if Next(limit, t, x, newId).Go? {
      var y := Next(limit, t, x, newId).next;
      RestoreWithinLimit(limit, t, y, newId);
    }
  }

  lemma RestoreWithinLimit(limit: nat, t: Tables, x: Transaction, newId: nat)
    requires x.request.RestoreProject? && x.stage == LimitChecked && x.writes == []
    requires OwnedBy(t, x.request.p, x.request.owner) && t.projects[x.request.p].status == Archived
    ensures
      var p := x.request.p;
      RunAlone(limit, t, x, newId, 4) == Some(WithProject(t, p, t.projects[p].(status := Active), Restored(p)))
  {
    NoRivals(t, x);
    Proceeds(limit, t, x, newId, 4);
    var y := Next(limit, t, x, newId).next;
    RecordsLast(limit, t, y, newId, 3);
    ApplyTwo(t, y.writes[0], Record(FinalEvent(y)));
  }

  lemma CreateAlone(limit: nat, t: Tables, owner: UserId, name: string, key: nat, now: int, newId: nat)
    requires newId !in t.seen && (newId, owner) !in t.members
    ensures Alone(limit, t, CreateProject(owner, name, key), now, newId) == CreateEffect(limit, t, owner, name, key, newId)
  {
    TestsAgree(limit, t);
    var x := Started(CreateProject(owner, name, key), now);
    NoRivals(t, x);
    Proceeds(limit, t, x, newId, 7);
    if owner in t.users {
      var y := Next(limit, t, x, newId).next;
      Proceeds(limit, t, y, newId, 6);
      if !KeyTaken(t, owner, Some(key)) {
        var z := Next(limit, t, y, newId).next;
        Proceeds(limit, t, z, newId, 5);
        if WithinLimit(limit, t, owner) {
          CreateWithinLimit(limit, t, Next(limit, t, z, newId).next, newId);
        }
      } else {
        var z := Next(limit, t, y, newId).next;
        assert z.stage == Finished && z.writes == [];
      }
    }
  }

  lemma CreateInserts(limit: nat, t: Tables, x: Transaction, newId: nat, put: Write) returns (y: Transaction)
    requires x.request.CreateProject? && x.stage == LimitChecked && x.writes == []
    requires newId !in t.seen && !KeyTaken(t, x.request.owner, Some(x.request.key))
    requires put == PutProject(newId, Project(Some(x.request.owner), Active, x.request.name, Some(x.request.key)))
    ensures y.request == x.request && y.id == newId && y.stage == Changed && y.writes == [put]
    ensures RunAlone(limit, t, x, newId, 4) == RunAlone(limit, t, y, newId, 3)
  {
    NoRivals(t, x);
    Proceeds(limit, t, x, newId, 4);
    y := Next(limit, t, x, newId).next;
  }

  lemma CreateWithinLimit(limit: nat, t: Tables, x: Transaction, newId: nat)
    requires x.request.CreateProject? && x.stage == LimitChecked && x.writes == []
    requires newId !in t.seen && (newId, x.request.owner) !in t.members
    requires !KeyTaken(t, x.request.owner, Some(x.request.key))
    ensures
      var r := x.request;
      RunAlone(limit, t, x, newId, 4) ==
      Some(WithOwnedProject(t, newId, Project(Some(r.owner), Active, r.name, Some(r.key)), r.owner, Created(newId)))
  {
    var put := PutProject(newId, Project(Some(x.request.owner), Active, x.request.name, Some(x.request.key)));
    var y := CreateInserts(limit, t, x, newId, put);
    AddsMemberToOneWrite(limit, t, y, newId, 3, put);
  }

  lemma CreateUnownedAlone(limit: nat, t: Tables, name: string, now: int, newId: nat)
    requires newId !in t.seen
    ensures Alone(limit, t, CreateUnowned(name), now, newId) == Effect(limit, t, CreateUnowned(name), now, newId)
  {
    var x := Started(CreateUnowned(name), now);
    NoRivals(t, x);
    Proceeds(limit, t, x, newId, 7);
    var y := Next(limit, t, x, newId).next;
    var put := PutProject(newId, Project(None, Active, name, None));
    assert y.stage == Recorded && y.writes == [put];
    ApplyOne(t, put);
  }

  lemma AssignAlone(limit: nat, t: Tables, p: ProjectId, destination: UserId, now: int, newId: nat)
    ensures Alone(limit, t, AssignOwner(p, destination), now, newId) == AssignEffect(limit, t, p, destination)
  {
    var x := Started(AssignOwner(p, destination), now);
    NoRivals(t, x);
    Proceeds(limit, t, x, newId, 7);
    if destination in t.users {
      var y := Next(limit, t, x, newId).next;
      Proceeds(limit, t, y, newId, 6);
      if Next(limit, t, y, newId).Go? {
        var z := Next(limit, t, y, newId).next;
        NoRivals(t, z);
        Proceeds(limit, t, z, newId, 5);
        AssignFromLock(limit, t, Next(limit, t, z, newId).next, newId);
      }
    }
  }

  lemma AssignFromLock(limit: nat, t: Tables, x: Transaction, newId: nat)
    requires x.request.AssignOwner? && x.stage == ProjectLocked && x.writes == []
    requires x.request.destination in t.users && !t.users[x.request.destination].blocked && Ownerless(t, x.request.p)
    ensures RunAlone(limit, t, x, newId, 4) == AssignEffect(limit, t, x.request.p, x.request.destination)
  {
    TestsAgree(limit, t);
    Proceeds(limit, t, x, newId, 4);
    if Next(limit, t, x, newId).Go? {
      AssignWithinLimit(limit, t, Next(limit, t, x, newId).next, newId);
    }
  }

  lemma AssignWithinLimit(limit: nat, t: Tables, x: Transaction, newId: nat)
    requires x.request.AssignOwner? && x.stage == LimitChecked && x.writes == [] && Ownerless(t, x.request.p)
    ensures
      var p, destination := x.request.p, x.request.destination;
      RunAlone(limit, t, x, newId, 3) ==
      if KeyTaken(t, destination, t.projects[p].createKey) || (p, destination) in t.members then None
      else Some(WithOwnedProject(t, p, t.projects[p].(owner := Some(destination)), destination, OwnerAssigned(p, destination)))
  {
    var p, destination := x.request.p, x.request.destination;
    NoRivals(t, x);
    Proceeds(limit, t, x, newId, 3);
    if Next(limit, t, x, newId).Go? {
      var y := Next(limit, t, x, newId).next;
      var put := PutProject(p, t.projects[p].(owner := Some(destination)));
      assert y.writes == [put];
      AddsMemberToOneWrite(limit, t, y, newId, 2, put);
    }
  }

  lemma DeleteAlone(limit: nat, t: Tables, owner: UserId, p: ProjectId, confirmName: string, now: int, newId: nat)
    ensures Alone(limit, t, DeleteProject(owner, p, confirmName), now, newId) == DeleteEffect(t, owner, p, confirmName)
  {
    var x := Started(DeleteProject(owner, p, confirmName), now);
    NoRivals(t, x);
    Proceeds(limit, t, x, newId, 7);
    if OwnedBy(t, p, owner) {
      var y := Next(limit, t, x, newId).next;
      NoRivals(t, y);
      Proceeds(limit, t, y, newId, 6);
      if Next(limit, t, y, newId).Go? {
        var z := Next(limit, t, y, newId).next;
        RecordsLast(limit, t, z, newId, 5);
        ApplyTwo(t, z.writes[0], Record(FinalEvent(z)));
      }
    }
  }

  lemma InviteAlone(limit: nat, t: Tables, owner: UserId, p: ProjectId, now: int, newId: nat)
    requires newId !in t.issued
    ensures Alone(limit, t, CreateInvitation(owner, p), now, newId) == InviteEffect(t, owner, p, now, newId)
  {
    var x := Started(CreateInvitation(owner, p), now);
    NoRivals(t, x);
    Proceeds(limit, t, x, newId, 7);
    if OwnedBy(t, p, owner) {
      InviteFromLock(limit, t, Next(limit, t, x, newId).next, newId);
    }
  }

  lemma InviteFromLock(limit: nat, t: Tables, x: Transaction, newId: nat)
    requires x.request.CreateInvitation? && x.stage == ProjectLocked && x.writes == []
    requires newId !in t.issued && OwnedBy(t, x.request.p, x.request.owner)
    ensures RunAlone(limit, t, x, newId, 6) == InviteEffect(t, x.request.owner, x.request.p, x.now, newId)
  {
    NoRivals(t, x);
    Proceeds(limit, t, x, newId, 6);
    var y := Next(limit, t, x, newId).next;
    RecordsLast(limit, t, y, newId, 5);
    ApplyTwo(t, y.writes[0], Record(FinalEvent(y)));
  }

  lemma RedeemAlone(limit: nat, t: Tables, user: UserId, i: InvitationId, now: int, newId: nat)
    ensures Alone(limit, t, Redeem(user, i), now, newId) == RedeemEffect(t, user, i, now)
  {
    var x := Started(Redeem(user, i), now);
    NoRivals(t, x);
    Proceeds(limit, t, x, newId, 7);
    if i in t.invitations && Pending(t.invitations[i], now) {
      var y := Next(limit, t, x, newId).next;
      Proceeds(limit, t, y, newId, 6);
      var z := Next(limit, t, y, newId).next;
      Proceeds(limit, t, z, newId, 5);
      if Next(limit, t, z, newId).Go? {
        RedeemFromCheck(limit, t, Next(limit, t, z, newId).next, newId);
      }
    }
  }

  lemma RedeemFromCheck(limit: nat, t: Tables, x: Transaction, newId: nat)
    requires x.request.Redeem? && x.stage == Checked && x.writes == []
    requires x.request.i in t.invitations && Pending(t.invitations[x.request.i], x.now) && x.id == t.invitations[x.request.i].project
    requires (x.id, x.request.user) !in t.members && !OwnedBy(t, x.id, x.request.user)
    ensures RunAlone(limit, t, x, newId, 4) == RedeemEffect(t, x.request.user, x.request.i, x.now)
  {
    Proceeds(limit, t, x, newId, 4);
    var i := x.request.i;
    var put := PutInvitation(i, t.invitations[i].(redeemedBy := Some(x.request.user)));
    var y := x.(stage := Changed, held := x.held + {InvitationRow(i)}, writes := [put]);
    assert Next(limit, t, x, newId) == Go(y) by {
      NoRivals(t, x);
    }
    AddsMemberToOneWrite(limit, t, y, newId, 3, put);
  }

  lemma RevokeAlone(limit: nat, t: Tables, owner: UserId, p: ProjectId, i: InvitationId, now: int, newId: nat)
    ensures Alone(limit, t, RevokeInvitation(owner, p, i), now, newId) == RevokeEffect(t, owner, p, i, now)
  {
    var x := Started(RevokeInvitation(owner, p, i), now);
    NoRivals(t, x);
    Proceeds(limit, t, x, newId, 7);
    if OwnedBy(t, p, owner) {
      var y := Next(limit, t, x, newId).next;
      NoRivals(t, y);
      Proceeds(limit, t, y, newId, 6);
      if Next(limit, t, y, newId).Go? {
        var z := Next(limit, t, y, newId).next;
        RecordsLast(limit, t, z, newId, 5);
        ApplyTwo(t, z.writes[0], Record(FinalEvent(z)));
      }
    }
  }

  lemma RemoveAlone(limit: nat, t: Tables, owner: UserId, p: ProjectId, user: UserId, now: int, newId: nat)
    ensures Alone(limit, t, RemoveViewer(owner, p, user), now, newId) == RemoveEffect(t, owner, p, user)
  {
    var x := Started(RemoveViewer(owner, p, user), now);
    NoRivals(t, x);
    Proceeds(limit, t, x, newId, 7);
    if OwnedBy(t, p, owner) {
      var y := Next(limit, t, x, newId).next;
      NoRivals(t, y);
      Proceeds(limit, t, y, newId, 6);
      if Next(limit, t, y, newId).Go? {
        var z := Next(limit, t, y, newId).next;
        RecordsLast(limit, t, z, newId, 5);
        ApplyTwo(t, z.writes[0], Record(FinalEvent(z)));
      }
    }
  }

  /** An identifier that is new where the request generates one. */
  predicate Unused(t: Tables, request: Request, newId: nat) {
    match request
    case CreateProject(owner, _, _) => newId !in t.seen && (newId, owner) !in t.members
    case CreateUnowned(_) => newId !in t.seen
    case CreateInvitation(_, _) => newId !in t.issued
    case _ => true
  }

  /** Every transaction that nothing interferes with has its promised effect, and throws exactly when it promises an
      error. */
  lemma AloneIsEffect(limit: nat, t: Tables, request: Request, now: int, newId: nat)
    requires Unused(t, request, newId)
    ensures Alone(limit, t, request, now, newId) == Effect(limit, t, request, now, newId)
  {
    match request
    case CreateProject(owner, name, key) => CreateAlone(limit, t, owner, name, key, now, newId);
    case CreateUnowned(name) => CreateUnownedAlone(limit, t, name, now, newId);
    case ArchiveProject(owner, p) => ArchiveAlone(limit, t, request, p, now, newId);
    case OperatorArchive(p) => ArchiveAlone(limit, t, request, p, now, newId);
    case RestoreProject(owner, p) => RestoreAlone(limit, t, owner, p, now, newId);
    case DeleteProject(owner, p, confirmName) => DeleteAlone(limit, t, owner, p, confirmName, now, newId);
    case AssignOwner(p, destination) => AssignAlone(limit, t, p, destination, now, newId);
    case CreateInvitation(owner, p) => InviteAlone(limit, t, owner, p, now, newId);
    case Redeem(user, i) => RedeemAlone(limit, t, user, i, now, newId);
    case RevokeInvitation(owner, p, i) => RevokeAlone(limit, t, owner, p, i, now, newId);
    case RemoveViewer(owner, p, user) => RemoveAlone(limit, t, owner, p, user, now, newId);
  }
}
