/** When a lone control-plane transaction succeeds and what it writes, in terms of the rows alone: these statements use
    no test of the code that they are about. */
module ControlPlaneContract {
  import opened Wrappers
  import opened ControlPlane
  import opened ControlPlaneInvariant
  import opened ControlPlaneAlone

  /** A repeated creation key changes nothing; otherwise the project and the membership of its owner are added, unless
      the active projects of the owner have reached the limit. */
  lemma CreationIsExact(limit: nat, t: Tables, o: UserId, name: string, key: nat, now: int, newId: nat)
    requires newId !in t.seen && (newId, o) !in t.members
    ensures
      var taken := exists p :: p in t.projects && t.projects[p].owner == Some(o) && t.projects[p].createKey == Some(key);
      var active := set p | p in t.projects && t.projects[p].owner == Some(o) && t.projects[p].status == Active;
      Alone(limit, t, CreateProject(o, name, key), now, newId) ==
      if o in t.users && taken then Some(t)
      else if o in t.users && (limit == 0 || |active| < limit) then
        Some(Tables(t.users, t.projects[newId := Project(Some(o), Active, name, Some(key))], t.members[(newId, o) := Owner],
                    t.invitations, t.log + [Created(newId)], t.seen + {newId}, t.issued))
      else None
  {
    AloneIsEffect(limit, t, CreateProject(o, name, key), now, newId);
  }

  /** Only the owner restores an archived project, and only below the limit. */
  lemma RestoringIsExact(limit: nat, t: Tables, o: UserId, p: ProjectId, now: int, newId: nat)
    ensures
      var active := set q | q in t.projects && t.projects[q].owner == Some(o) && t.projects[q].status == Active;
      Alone(limit, t, RestoreProject(o, p), now, newId) ==
      if && o in t.users && p in t.projects && t.projects[p].owner == Some(o) && t.projects[p].status == Archived
         && (limit == 0 || |active| < limit)
      then
        Some(t.(projects := t.projects[p := t.projects[p].(status := Active)], seen := t.seen + {p},
                log := t.log + [Restored(p)]))
      else None
  {
    AloneIsEffect(limit, t, RestoreProject(o, p), now, newId);
  }

  /** An unblocked user becomes the owner of a project without one. The limit counts only if the project is active, and
      the user must not have a project with the same creation key or already be a member. */
  lemma AssignmentIsExact(limit: nat, t: Tables, p: ProjectId, o: UserId, now: int, newId: nat)
    ensures
      var active := set q | q in t.projects && t.projects[q].owner == Some(o) && t.projects[q].status == Active;
      Alone(limit, t, AssignOwner(p, o), now, newId) ==
      if && o in t.users && !t.users[o].blocked && p in t.projects && t.projects[p].owner == None && (p, o) !in t.members
         && (t.projects[p].status == Active ==> limit == 0 || |active| < limit)
         && (t.projects[p].createKey.Some? ==>
               forall q :: q in t.projects && t.projects[q].owner == Some(o) ==> t.projects[q].createKey != t.projects[p].createKey)
      then
        Some(t.(projects := t.projects[p := t.projects[p].(owner := Some(o))], members := t.members[(p, o) := Owner],
                seen := t.seen + {p}, log := t.log + [OwnerAssigned(p, o)]))
      else None
  {
    AloneIsEffect(limit, t, AssignOwner(p, o), now, newId);
  }

  /** Whoever is neither owner nor member becomes a viewer with an invitation that is unused, unrevoked and not yet
      expired. */
  lemma RedemptionIsExact(limit: nat, t: Tables, u: UserId, i: InvitationId, now: int, newId: nat)
    ensures
      Alone(limit, t, Redeem(u, i), now, newId).Some? <==>
      && i in t.invitations
      && t.invitations[i].redeemedBy.None? && !t.invitations[i].revoked && now < t.invitations[i].expiresAt
      && t.invitations[i].project in t.projects
      && t.projects[t.invitations[i].project].owner != Some(u)
      && (t.invitations[i].project, u) !in t.members
    ensures
      var redeemed := Alone(limit, t, Redeem(u, i), now, newId);
      redeemed.Some? ==>
        redeemed.value ==
        t.(invitations := t.invitations[i := t.invitations[i].(redeemedBy := Some(u))], issued := t.issued + {i},
           members := t.members[(t.invitations[i].project, u) := Viewer],
           log := t.log + [InvitationRedeemed(t.invitations[i].project, i, u)])
  {
    AloneIsEffect(limit, t, Redeem(u, i), now, newId);
  }

  /** The owner revokes an invitation of the project exactly while it could still be redeemed. */
  lemma RevocationIsExact(limit: nat, t: Tables, o: UserId, p: ProjectId, i: InvitationId, now: int, newId: nat)
    ensures
      Alone(limit, t, RevokeInvitation(o, p, i), now, newId).Some? <==>
      && p in t.projects && t.projects[p].owner == Some(o)
      && i in t.invitations && t.invitations[i].project == p
      && t.invitations[i].redeemedBy.None? && !t.invitations[i].revoked && now < t.invitations[i].expiresAt
    ensures
      var revoked := Alone(limit, t, RevokeInvitation(o, p, i), now, newId);
      revoked.Some? ==>
        revoked.value ==
        t.(invitations := t.invitations[i := t.invitations[i].(revoked := true)], issued := t.issued + {i},
           log := t.log + [InvitationRevoked(p, i)])
  {
    AloneIsEffect(limit, t, RevokeInvitation(o, p, i), now, newId);
  }

  /** A new invitation lets a non-member in until just before seven days have passed, and not from then on. */
  lemma InvitationLastsAWeek(
    limit: nat, t: Tables, o: UserId, p: ProjectId, now: int, i: InvitationId, u: UserId, at: int, n: nat)
    requires i !in t.issued && p in t.projects && t.projects[p].owner == Some(o) && u != o && (p, u) !in t.members
    ensures
      var invited := Alone(limit, t, CreateInvitation(o, p), now, i);
      invited.Some? && (Alone(limit, invited.value, Redeem(u, i), at, n).Some? <==> at < now + 7 * 24 * 60 * 60 * 1_000)
  {
    AloneIsEffect(limit, t, CreateInvitation(o, p), now, i);
    RedemptionIsExact(limit, Alone(limit, t, CreateInvitation(o, p), now, i).value, u, i, at, n);
  }

  /** It lets in one user only, and none once it is revoked. */
  lemma InvitationLetsInOne(limit: nat, t: Tables, u: UserId, i: InvitationId, now: int, v: UserId, at: int, n: nat)
    requires Alone(limit, t, Redeem(u, i), now, n).Some?
    ensures Alone(limit, Alone(limit, t, Redeem(u, i), now, n).value, Redeem(v, i), at, n) == None
    ensures
      var p := t.invitations[i].project;
      forall o: UserId :: Alone(limit, t, RevokeInvitation(o, p, i), now, n).Some? ==>
        Alone(limit, Alone(limit, t, RevokeInvitation(o, p, i), now, n).value, Redeem(v, i), at, n) == None
  {
    RedemptionIsExact(limit, t, u, i, now, n);
    RedemptionIsExact(limit, Alone(limit, t, Redeem(u, i), now, n).value, v, i, at, n);
    var p := t.invitations[i].project;
    forall o: UserId | Alone(limit, t, RevokeInvitation(o, p, i), now, n).Some?
      ensures Alone(limit, Alone(limit, t, RevokeInvitation(o, p, i), now, n).value, Redeem(v, i), at, n) == None
    {
      RevocationIsExact(limit, t, o, p, i, now, n);
      RedemptionIsExact(limit, Alone(limit, t, RevokeInvitation(o, p, i), now, n).value, v, i, at, n);
    }
  }

  // ----- Waiting -----

  /** No other transaction has a lock that excludes those that the step from x to y takes. */
  predicate Unopposed(s: State, t: TransactionId, x: Transaction, y: Transaction) {
    forall o :: o in s.open && o != t ==>
      && (y.held - x.held) !! s.open[o].held && (y.held - x.held) !! s.open[o].shared && (y.shared - x.shared) !! s.open[o].held
  }

  /** What a statement does in spite of others: what it does alone, or it waits. */
  ghost predicate DelayedExactly(limit: nat, s: State, t: TransactionId, newId: nat)
    requires t in s.open
  {
    var x, alone, here := s.open[t], Next(limit, s.tables, s.open[t], newId), Statement(limit, s, t, newId);
    && (alone.Wait? ==> here == Wait)
    && (alone.Throw? ==> here == Throw || here == Wait)
    && (alone.Go? ==> here == if Unopposed(s, t, x, alone.next) then alone else Wait)
  }

  lemma UnopposedRows(s: State, t: TransactionId, x: Transaction, y: Transaction)
    requires t in s.open && x == s.open[t] && forall o :: o in s.open && o != t ==> Compatible(x, s.open[o])
    ensures Unopposed(s, t, x, y) <==>
            (forall row :: row in y.held ==> Free(s, t, row)) && (forall row :: row in y.shared ==> FreeForShare(s, t, row))
  {
  }

  /** The rows that the transaction has locked then are not locked by others. */
  predicate Grants(s: State, t: TransactionId, y: Transaction) {
    (forall row :: row in y.held ==> Free(s, t, row)) && (forall row :: row in y.shared ==> FreeForShare(s, t, row))
  }

  predicate Delayed(s: State, t: TransactionId, alone: Outcome, here: Outcome) {
    && (alone.Wait? ==> here == Wait)
    && (alone.Throw? ==> here == Throw || here == Wait)
    && (alone.Go? ==> here == if Grants(s, t, alone.next) then alone else Wait)
  }

  lemma CreationDelays(limit: nat, s: State, t: TransactionId, newId: nat)
    requires t in s.open && Grants(s, t, s.open[t])
    requires s.open[t].request.CreateProject? || s.open[t].request.CreateUnowned? || s.open[t].request.CreateInvitation?
    ensures Delayed(s, t, Next(limit, s.tables, s.open[t], newId), Statement(limit, s, t, newId))
  {
    NoRivals(s.tables, s.open[t]);
  }

  lemma AssignmentDelays(limit: nat, s: State, t: TransactionId, newId: nat)
    requires t in s.open && Grants(s, t, s.open[t])
    requires s.open[t].request.AssignOwner?
    ensures Delayed(s, t, Next(limit, s.tables, s.open[t], newId), Statement(limit, s, t, newId))
  {
    NoRivals(s.tables, s.open[t]);
  }

  lemma RedemptionDelays(limit: nat, s: State, t: TransactionId, newId: nat)
    requires t in s.open && Grants(s, t, s.open[t])
    requires s.open[t].request.Redeem?
    ensures Delayed(s, t, Next(limit, s.tables, s.open[t], newId), Statement(limit, s, t, newId))
  {
    NoRivals(s.tables, s.open[t]);
  }

  lemma ArchivingDelays(limit: nat, s: State, t: TransactionId, newId: nat)
    requires t in s.open && Grants(s, t, s.open[t])
    requires s.open[t].request.ArchiveProject? || s.open[t].request.OperatorArchive?
    ensures Delayed(s, t, Next(limit, s.tables, s.open[t], newId), Statement(limit, s, t, newId))
  {
    NoRivals(s.tables, s.open[t]);
  }

  lemma RestoringDelays(limit: nat, s: State, t: TransactionId, newId: nat)
    requires t in s.open && Grants(s, t, s.open[t])
    requires s.open[t].request.RestoreProject?
    ensures Delayed(s, t, Next(limit, s.tables, s.open[t], newId), Statement(limit, s, t, newId))
  {
    NoRivals(s.tables, s.open[t]);
  }

  lemma DeletionDelays(limit: nat, s: State, t: TransactionId, newId: nat)
    requires t in s.open && Grants(s, t, s.open[t])
    requires s.open[t].request.DeleteProject?
    ensures Delayed(s, t, Next(limit, s.tables, s.open[t], newId), Statement(limit, s, t, newId))
  {
    NoRivals(s.tables, s.open[t]);
  }

  lemma RemovalDelays(limit: nat, s: State, t: TransactionId, newId: nat)
    requires t in s.open && Grants(s, t, s.open[t])
    requires s.open[t].request.RevokeInvitation? || s.open[t].request.RemoveViewer?
    ensures Delayed(s, t, Next(limit, s.tables, s.open[t], newId), Statement(limit, s, t, newId))
  {
    NoRivals(s.tables, s.open[t]);
  }

  lemma CreationsNeverWait(limit: nat, t: Tables, x: Transaction, newId: nat)
    requires Knows(limit, t, x) && InProgress(x) && newId !in t.seen && newId !in t.issued
    requires x.request.CreateProject? || x.request.CreateUnowned? || x.request.CreateInvitation?
    ensures Next(limit, t, x, newId) != Wait
  {
    NoRivals(t, x);
  }

  lemma OthersNeverWait(limit: nat, t: Tables, x: Transaction, newId: nat)
    requires Knows(limit, t, x) && InProgress(x)
    requires !x.request.CreateProject? && !x.request.CreateUnowned? && !x.request.CreateInvitation?
    ensures Next(limit, t, x, newId) != Wait
  {
    NoRivals(t, x);
  }

  lemma StatementDelays(limit: nat, s: State, t: TransactionId, newId: nat)
    requires t in s.open && Grants(s, t, s.open[t])
    ensures Delayed(s, t, Next(limit, s.tables, s.open[t], newId), Statement(limit, s, t, newId))
  {
    match s.open[t].request
    case CreateProject(_, _, _) => CreationDelays(limit, s, t, newId);
    case CreateUnowned(_) => CreationDelays(limit, s, t, newId);
    case CreateInvitation(_, _) => CreationDelays(limit, s, t, newId);
    case AssignOwner(_, _) => AssignmentDelays(limit, s, t, newId);
    case Redeem(_, _) => RedemptionDelays(limit, s, t, newId);
    case ArchiveProject(_, _) => ArchivingDelays(limit, s, t, newId);
    case OperatorArchive(_) => ArchivingDelays(limit, s, t, newId);
    case RestoreProject(_, _) => RestoringDelays(limit, s, t, newId);
    case DeleteProject(_, _, _) => DeletionDelays(limit, s, t, newId);
    case RevokeInvitation(_, _, _) => RemovalDelays(limit, s, t, newId);
    case RemoveViewer(_, _, _) => RemovalDelays(limit, s, t, newId);
  }

  /** In spite of others a statement does what it does alone, exactly if no other transaction has an opposed lock, and
      waits otherwise. Alone it never waits, if the identifier on offer is new. */
  lemma WaitsExactlyForLocks(limit: nat, s: State, t: TransactionId, newId: nat)
    requires Consistent(limit, s) && t in s.open
    ensures DelayedExactly(limit, s, t, newId)
    ensures InProgress(s.open[t]) && newId !in s.tables.seen && newId !in s.tables.issued ==>
              Next(limit, s.tables, s.open[t], newId) != Wait
  {
    var x := s.open[t];
    UnopposedRows(s, t, x, x);
    StatementDelays(limit, s, t, newId);
    var alone := Next(limit, s.tables, x, newId);
    if alone.Go? {
      UnopposedRows(s, t, x, alone.next);
    }
    if InProgress(x) && newId !in s.tables.seen && newId !in s.tables.issued {
      if x.request.CreateProject? || x.request.CreateUnowned? || x.request.CreateInvitation? {
        CreationsNeverWait(limit, s.tables, x, newId);
      } else {
        OthersNeverWait(limit, s.tables, x, newId);
      }
    }
  }

  /** Transactions begin whenever their number is free, an assignment only for a project without owner. They commit
      exactly at their end, when they execute nothing more; an error and an abort, which may come at any time, leave
      nothing behind. */
  lemma BeginAndEndAreExact(limit: nat, s: State, t: TransactionId, request: Request, now: int, newId: nat)
    ensures
      Step(limit, s, Begin(t, request, now)) ==
      if && t !in s.open
         && (request.AssignOwner? ==> request.p in s.tables.projects && s.tables.projects[request.p].owner.None?)
      then Some(s.(open := s.open[t := Started(request, now)])) else None
    ensures Step(limit, s, Commit(t)).Some? <==> t in s.open && !InProgress(s.open[t])
    ensures Step(limit, s, Commit(t)).Some? && Knows(limit, s.tables, s.open[t]) ==> Step(limit, s, Execute(t, newId)) == None
    ensures t in s.open && Statement(limit, s, t, newId) == Throw ==>
              Step(limit, s, Execute(t, newId)) == Some(s.(open := s.open - {t}))
    ensures t in s.open ==> Step(limit, s, Abort(t)) == Some(s.(open := s.open - {t}))
  {
  }

  /** A login adds an unblocked user that is new; a blocking and an unblocking need the user's row to be free. */
  lemma UsersChangeExactly(limit: nat, s: State, u: UserId, blocked: bool)
    ensures
      Step(limit, s, AddUser(u)) ==
      if u in s.tables.users then None
      else Some(s.(tables := s.tables.(users := s.tables.users[u := User(false)])))
    ensures
      Step(limit, s, SetBlocked(u, blocked)) ==
      if u in s.tables.users && forall o :: o in s.open ==> UserRow(u) !in s.open[o].held
      then Some(s.(tables := s.tables.(users := s.tables.users[u := User(blocked)]))) else None
  {
  }
}
