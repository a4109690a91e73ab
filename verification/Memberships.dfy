/** Memberships, invitations and the audit log agree in every interleaving: owners have exactly one owner membership,
    invitations are redeemed at most once, and viewers are redemptions without removals. */
module Memberships {
  import opened Wrappers
  import opened ControlPlane
  import opened ControlPlaneInvariant

  // ----- Counting audit events -----

  function Redemptions(log: seq<Event>, p: ProjectId): nat {
    if log == [] then 0
    else
      var e := log[|log| - 1];
      Redemptions(log[..|log| - 1], p) + if e.InvitationRedeemed? && e.project == p then 1 else 0
  }

  function Removals(log: seq<Event>, p: ProjectId): nat {
    if log == [] then 0
    else
      var e := log[|log| - 1];
      Removals(log[..|log| - 1], p) + if e.ViewerRemoved? && e.project == p then 1 else 0
  }

  function RedemptionsOf(log: seq<Event>, i: InvitationId): nat {
    if log == [] then 0
    else
      var e := log[|log| - 1];
      RedemptionsOf(log[..|log| - 1], i) + if e.InvitationRedeemed? && e.invitation == i then 1 else 0
  }

  lemma CountsAfter(log: seq<Event>, e: Event)
    ensures forall p: ProjectId ::
              Redemptions(log + [e], p) == Redemptions(log, p) + if e.InvitationRedeemed? && e.project == p then 1 else 0
    ensures forall p: ProjectId ::
              Removals(log + [e], p) == Removals(log, p) + if e.ViewerRemoved? && e.project == p then 1 else 0
    ensures forall i: InvitationId ::
              RedemptionsOf(log + [e], i) == RedemptionsOf(log, i) + if e.InvitationRedeemed? && e.invitation == i then 1 else 0
  {
    assert (log + [e])[..|log|] == log;
  }

  function Viewers(members: map<(ProjectId, UserId), Role>, p: ProjectId): set<(ProjectId, UserId)> {
    set k | k in members && k.0 == p && members[k] == Viewer
  }

  // ----- What the committed rows satisfy -----

  /** Each owned project has exactly one owner membership, and it names the owner. Memberships and invitations belong
      to owned projects. */
  ghost predicate MembersAgree(t: Tables) {
    && (forall p: ProjectId, o: UserId {:trigger OwnedBy(t, p, o)} :: OwnedBy(t, p, o) ==> (p, o) in t.members && t.members[(p, o)] == Owner)
    && (forall k :: k in t.members ==>
          k.0 in t.projects && t.projects[k.0].owner.Some? && (t.members[k] == Owner ==> t.projects[k.0].owner == Some(k.1)))
    && (forall i :: i in t.invitations ==>
          i in t.issued && t.invitations[i].project in t.projects && t.projects[t.invitations[i].project].owner.Some?)
  }

  /** An invitation is redeemed at most once, and never also revoked; the log says when it was redeemed. */
  ghost predicate InvitationsAgree(t: Tables) {
    && (forall i :: i in t.invitations ==> !(t.invitations[i].redeemedBy.Some? && t.invitations[i].revoked))
    && (forall i :: i in t.invitations ==>
          RedemptionsOf(t.log, i) == if t.invitations[i].redeemedBy.Some? then 1 else 0)
    && (forall i: InvitationId :: RedemptionsOf(t.log, i) <= if i in t.issued then 1 else 0)
  }

  /** The viewers of each live project are its redemptions without its removals. */
  ghost predicate ViewersBalance(t: Tables) {
    && t.projects.Keys <= t.seen
    && (forall p: ProjectId :: p !in t.seen ==> Redemptions(t.log, p) == 0 && Removals(t.log, p) == 0)
    && (forall p :: p in t.projects ==> |Viewers(t.members, p)| + Removals(t.log, p) == Redemptions(t.log, p))
  }

  ghost predicate Agreement(t: Tables) {
    MembersAgree(t) && InvitationsAgree(t) && ViewersBalance(t)
  }

  // ----- Every commit keeps the agreement -----

  /** Events other than redemptions and removals do not enter the counts. */
  lemma NeutralRecordKeeps(t: Tables, e: Event)
    requires Agreement(t) && !e.InvitationRedeemed? && !e.ViewerRemoved?
    ensures Agreement(ApplyWrite(t, Record(e)))
  {
    var t' := ApplyWrite(t, Record(e));
    CountsAfter(t.log, e);
    assert MembersAgree(t') by {
      assert forall p: ProjectId, o: UserId :: OwnedBy(t', p, o) == OwnedBy(t, p, o);
    }
    assert ViewersBalance(t') by {
      assert forall p: ProjectId :: Viewers(t'.members, p) == Viewers(t.members, p);
    }
  }

  /** Archiving, restoring, or inserting without an owner: the project row alone changes. */
  lemma PutProjectKeeps(t: Tables, p: ProjectId, row: Project)
    requires Agreement(t)
    requires if p in t.projects then t.projects[p].owner == row.owner else p !in t.seen && row.owner == None
    ensures Agreement(ApplyWrite(t, PutProject(p, row)))
  {
    PutProjectKeepsMembers(t, p, row);
    PutProjectKeepsBalance(t, p, row);
  }

  lemma PutProjectKeepsMembers(t: Tables, p: ProjectId, row: Project)
    requires MembersAgree(t)
    requires if p in t.projects then t.projects[p].owner == row.owner else row.owner == None
    ensures MembersAgree(ApplyWrite(t, PutProject(p, row)))
  {
    assert forall q: ProjectId, o: UserId :: OwnedBy(ApplyWrite(t, PutProject(p, row)), q, o) == OwnedBy(t, q, o);
  }

  lemma PutProjectKeepsBalance(t: Tables, p: ProjectId, row: Project)
    requires MembersAgree(t) && ViewersBalance(t) && (p in t.projects || p !in t.seen)
    ensures ViewersBalance(ApplyWrite(t, PutProject(p, row)))
  {
    if p !in t.projects {
      assert Viewers(t.members, p) == {};
    }
  }

  /** Creating a project for an owner, or assigning an owner: the project row and the owner's membership. */
  lemma OwnerArrivalKeeps(t: Tables, p: ProjectId, row: Project, o: UserId)
    requires Agreement(t) && row.owner == Some(o) && (Ownerless(t, p) || p !in t.seen)
    ensures Agreement(ApplyWrite(ApplyWrite(t, PutProject(p, row)), PutMember(p, o, Owner)))
  {
    NoDependentsYet(t, p);
    OwnerArrivalKeepsMembers(t, p, row, o);
    OwnerArrivalKeepsBalance(t, p, row, o);
  }

  lemma NoDependentsYet(t: Tables, p: ProjectId)
    requires MembersAgree(t) && ViewersBalance(t) && (Ownerless(t, p) || p !in t.seen)
    ensures forall k :: k in t.members ==> k.0 != p
    ensures forall i :: i in t.invitations ==> t.invitations[i].project != p
    ensures Redemptions(t.log, p) == Removals(t.log, p)
  {
    if p in t.projects {
      assert forall k :: k in t.members ==> k.0 != p;
      assert Viewers(t.members, p) == {};
    }
  }

  lemma OwnerArrivalKeepsMembers(t: Tables, p: ProjectId, row: Project, o: UserId)
    requires MembersAgree(t) && row.owner == Some(o)
    requires forall k :: k in t.members ==> k.0 != p
    requires forall i :: i in t.invitations ==> t.invitations[i].project != p
    ensures MembersAgree(ApplyWrite(ApplyWrite(t, PutProject(p, row)), PutMember(p, o, Owner)))
  {
    var t' := ApplyWrite(ApplyWrite(t, PutProject(p, row)), PutMember(p, o, Owner));
    forall q: ProjectId, u: UserId | OwnedBy(t', q, u)
      ensures (q, u) in t'.members && t'.members[(q, u)] == Owner
    {
      assert q != p ==> OwnedBy(t, q, u);
    }
  }

  lemma OwnerArrivalKeepsBalance(t: Tables, p: ProjectId, row: Project, o: UserId)
    requires ViewersBalance(t)
    requires forall k :: k in t.members ==> k.0 != p
    requires Redemptions(t.log, p) == Removals(t.log, p)
    ensures ViewersBalance(ApplyWrite(ApplyWrite(t, PutProject(p, row)), PutMember(p, o, Owner)))
  {
    var t' := ApplyWrite(ApplyWrite(t, PutProject(p, row)), PutMember(p, o, Owner));
    forall q | q in t'.projects
      ensures |Viewers(t'.members, q)| + Removals(t'.log, q) == Redemptions(t'.log, q)
    {
      assert Viewers(t'.members, q) == Viewers(t.members, q);
      if q == p {
        assert Viewers(t.members, p) == {};
      }
    }
  }

  /** A project goes, with its memberships and invitations. */
  lemma DropProjectKeeps(t: Tables, p: ProjectId)
    requires Agreement(t)
    ensures Agreement(ApplyWrite(t, DropProject(p)))
  {
    DropProjectKeepsMembers(t, p);
    DropProjectKeepsBalance(t, p);
  }

  lemma DropProjectKeepsMembers(t: Tables, p: ProjectId)
    requires MembersAgree(t)
    ensures MembersAgree(ApplyWrite(t, DropProject(p)))
  {
    assert forall q: ProjectId, o: UserId :: OwnedBy(ApplyWrite(t, DropProject(p)), q, o) ==> OwnedBy(t, q, o) && q != p;
  }

  lemma DropProjectKeepsBalance(t: Tables, p: ProjectId)
    requires ViewersBalance(t)
    ensures ViewersBalance(ApplyWrite(t, DropProject(p)))
  {
    var t' := ApplyWrite(t, DropProject(p));
    assert forall q: ProjectId :: q != p ==> Viewers(t'.members, q) == Viewers(t.members, q);
  }

  /** An invitation is created for an owned project, or revoked while it is pending. */
  lemma PutInvitationKeeps(t: Tables, i: InvitationId, row: Invitation)
    requires Agreement(t) && row.redeemedBy == None
    requires row.project in t.projects && t.projects[row.project].owner.Some?
    requires if i in t.invitations then t.invitations[i].redeemedBy == None else i !in t.issued
    ensures Agreement(ApplyWrite(t, PutInvitation(i, row)))
  {
    var t' := ApplyWrite(t, PutInvitation(i, row));
    assert MembersAgree(t') by {
      assert forall q: ProjectId, o: UserId :: OwnedBy(t', q, o) == OwnedBy(t, q, o);
    }
    PutInvitationKeepsInvitations(t, i, row);
  }

  lemma PutInvitationKeepsInvitations(t: Tables, i: InvitationId, row: Invitation)
    requires InvitationsAgree(t) && row.redeemedBy == None
    requires if i in t.invitations then t.invitations[i].redeemedBy == None else i !in t.issued
    ensures InvitationsAgree(ApplyWrite(t, PutInvitation(i, row)))
  {
    assert RedemptionsOf(t.log, i) == 0;
  }

  /** The tables after a removal: the viewer goes, and the log says so. */
  function ViewerGone(t: Tables, p: ProjectId, u: UserId): Tables {
    t.(members := t.members - {(p, u)}, log := t.log + [ViewerRemoved(p, u)])
  }

  lemma ViewerGoneKeeps(t: Tables, p: ProjectId, u: UserId)
    requires Agreement(t) && (p, u) in t.members && t.members[(p, u)] == Viewer
    ensures Agreement(ViewerGone(t, p, u))
  {
    ViewerGoneKeepsMembers(t, p, u);
    ViewerGoneKeepsInvitations(t, p, u);
    ViewerGoneKeepsBalance(t, p, u);
  }

  lemma ViewerGoneKeepsInvitations(t: Tables, p: ProjectId, u: UserId)
    requires InvitationsAgree(t)
    ensures InvitationsAgree(ViewerGone(t, p, u))
  {
    CountsAfter(t.log, ViewerRemoved(p, u));
  }

  lemma ViewerGoneKeepsMembers(t: Tables, p: ProjectId, u: UserId)
    requires MembersAgree(t) && (p, u) in t.members && t.members[(p, u)] == Viewer
    ensures MembersAgree(ViewerGone(t, p, u))
  {
    assert forall q: ProjectId, o: UserId :: OwnedBy(ViewerGone(t, p, u), q, o) == OwnedBy(t, q, o);
  }

  lemma ViewerDropped(members: map<(ProjectId, UserId), Role>, p: ProjectId, u: UserId)
    requires (p, u) in members && members[(p, u)] == Viewer
    ensures |Viewers(members - {(p, u)}, p)| == |Viewers(members, p)| - 1
    ensures forall q: ProjectId :: q != p ==> Viewers(members - {(p, u)}, q) == Viewers(members, q)
  {
    assert Viewers(members - {(p, u)}, p) == Viewers(members, p) - {(p, u)};
  }

  lemma ViewerGoneKeepsBalance(t: Tables, p: ProjectId, u: UserId)
    requires ViewersBalance(t) && p in t.projects && (p, u) in t.members && t.members[(p, u)] == Viewer
    ensures ViewersBalance(ViewerGone(t, p, u))
  {
    CountsAfter(t.log, ViewerRemoved(p, u));
    ViewerDropped(t.members, p, u);
  }

  /** The tables after a redemption: the invitation is claimed, the viewer arrives, and the log says so. */
  function Redeemed(t: Tables, i: InvitationId, u: UserId): Tables
    requires i in t.invitations
  {
    var p := t.invitations[i].project;
    t.(invitations := t.invitations[i := t.invitations[i].(redeemedBy := Some(u))], issued := t.issued + {i},
       members := t.members[(p, u) := Viewer], log := t.log + [InvitationRedeemed(p, i, u)])
  }

  lemma RedemptionKeeps(t: Tables, i: InvitationId, u: UserId, now: int)
    requires Agreement(t) && i in t.invitations && Pending(t.invitations[i], now)
    requires (t.invitations[i].project, u) !in t.members
    ensures Agreement(Redeemed(t, i, u))
  {
    RedemptionKeepsMembers(t, i, u);
    RedemptionKeepsInvitations(t, i, u, now);
    RedemptionKeepsBalance(t, i, u);
  }

  lemma RedemptionKeepsMembers(t: Tables, i: InvitationId, u: UserId)
    requires MembersAgree(t) && i in t.invitations && (t.invitations[i].project, u) !in t.members
    ensures MembersAgree(Redeemed(t, i, u))
  {
    assert forall q: ProjectId, o: UserId :: OwnedBy(Redeemed(t, i, u), q, o) == OwnedBy(t, q, o);
  }

  lemma RedemptionKeepsInvitations(t: Tables, i: InvitationId, u: UserId, now: int)
    requires i in t.issued && InvitationsAgree(t) && i in t.invitations && Pending(t.invitations[i], now)
    ensures InvitationsAgree(Redeemed(t, i, u))
  {
    CountsAfter(t.log, InvitationRedeemed(t.invitations[i].project, i, u));
    assert RedemptionsOf(t.log, i) == 0;
  }

  lemma ViewerAdded(members: map<(ProjectId, UserId), Role>, p: ProjectId, u: UserId)
    requires (p, u) !in members
    ensures |Viewers(members[(p, u) := Viewer], p)| == |Viewers(members, p)| + 1
    ensures forall q: ProjectId :: q != p ==> Viewers(members[(p, u) := Viewer], q) == Viewers(members, q)
  {
    assert Viewers(members[(p, u) := Viewer], p) == Viewers(members, p) + {(p, u)};
  }

  lemma RedemptionKeepsBalance(t: Tables, i: InvitationId, u: UserId)
    requires ViewersBalance(t) && i in t.invitations && t.invitations[i].project in t.projects
    requires (t.invitations[i].project, u) !in t.members
    ensures ViewersBalance(Redeemed(t, i, u))
  {
    CountsAfter(t.log, InvitationRedeemed(t.invitations[i].project, i, u));
    ViewerAdded(t.members, t.invitations[i].project, u);
  }

  /** What the commit of a redemption does to the tables. */
  lemma RedeemCommits(limit: nat, t: Tables, x: Transaction)
    requires x.request.Redeem? && Knows(limit, t, x) && x.stage == Recorded
    ensures x.request.i in t.invitations && Pending(t.invitations[x.request.i], x.now)
    ensures (t.invitations[x.request.i].project, x.request.user) !in t.members
    ensures Apply(t, x.writes) == Redeemed(t, x.request.i, x.request.user)
  {
    ApplyThree(t, x.writes[0], x.writes[1], x.writes[2]);
  }

  lemma RemovalCommits(limit: nat, t: Tables, x: Transaction)
    requires x.request.RemoveViewer? && Knows(limit, t, x) && x.stage == Recorded
    ensures Apply(t, x.writes) == ViewerGone(t, x.request.p, x.request.user)
  {
    ApplyTwo(t, x.writes[0], x.writes[1]);
  }

  lemma FirstWriteKeepsAgreement(limit: nat, t: Tables, x: Transaction)
    requires Agreement(t) && Knows(limit, t, x) && x.stage == Recorded && |x.writes| == 2 && !x.request.RemoveViewer?
    ensures Agreement(ApplyWrite(t, x.writes[0]))
  {
    match x.writes[0] {
      case PutProject(p, row) => PutProjectKeeps(t, p, row);
      case DropProject(p) => DropProjectKeeps(t, p);
      case PutInvitation(i, row) => PutInvitationKeeps(t, i, row);
    }
  }

  lemma TwoWritesKeepAgreement(limit: nat, t: Tables, x: Transaction)
    requires Agreement(t) && Knows(limit, t, x) && x.stage == Recorded && |x.writes| == 2
    ensures Agreement(Apply(t, x.writes))
  {
    var w := x.writes;
    if x.request.RemoveViewer? {
      RemovalCommits(limit, t, x);
      ViewerGoneKeeps(t, x.request.p, x.request.user);
    } else {
      assert w == [w[0], w[1]];
      ApplyTwo(t, w[0], w[1]);
      FirstWriteKeepsAgreement(limit, t, x);
      NeutralRecordKeeps(ApplyWrite(t, w[0]), w[1].event);
    }
  }

  lemma ThreeWritesKeepAgreement(limit: nat, t: Tables, x: Transaction)
    requires Agreement(t) && Knows(limit, t, x) && x.stage == Recorded && |x.writes| == 3
    ensures Agreement(Apply(t, x.writes))
  {
    var w := x.writes;
    if x.request.Redeem? {
      RedeemCommits(limit, t, x);
      RedemptionKeeps(t, x.request.i, x.request.user, x.now);
    } else {
      assert w == [w[0], w[1], w[2]];
      ApplyThree(t, w[0], w[1], w[2]);
      OwnerArrivalKeeps(t, w[0].p, w[0].project, w[1].u);
      NeutralRecordKeeps(ApplyWrite(ApplyWrite(t, w[0]), w[1]), w[2].event);
    }
  }

  lemma CommitKeepsAgreement(limit: nat, t: Tables, x: Transaction)
    requires Agreement(t) && Knows(limit, t, x) && x.stage in {Recorded, Finished}
    ensures Agreement(Apply(t, x.writes))
  {
    var w := x.writes;
    if |w| == 1 {
      ApplyOne(t, w[0]);
      PutProjectKeeps(t, w[0].p, w[0].project);
    } else if |w| == 2 {
      TwoWritesKeepAgreement(limit, t, x);
    } else if |w| == 3 {
      ThreeWritesKeepAgreement(limit, t, x);
    }
  }

  lemma UsersKeepAgreement(t: Tables, users: map<UserId, User>)
    requires Agreement(t)
    ensures Agreement(t.(users := users))
  {
    assert forall p: ProjectId, o: UserId :: OwnedBy(t.(users := users), p, o) == OwnedBy(t, p, o);
  }

  lemma StepKeepsAgreement(limit: nat, s: State, a: Action, s': State)
    requires Consistent(limit, s) && Agreement(s.tables) && Step(limit, s, a) == Some(s')
    ensures Agreement(s'.tables)
  {
    if a.Commit? {
      CommitKeepsAgreement(limit, s.tables, s.open[a.t]);
    } else {
      UsersKeepAgreement(s.tables, s'.tables.users);
    }
  }

  ghost predicate Empty(s: State) {
    && s.open == map[] && s.tables.projects == map[] && s.tables.members == map[] && s.tables.invitations == map[]
    && s.tables.log == [] && s.tables.seen == {} && s.tables.issued == {}
  }

  /** From an empty start, memberships, invitations and the log agree in every state of every interleaving. */
  lemma {:induction false} MembershipsAgree(limit: nat, states: seq<State>, actions: seq<Action>, k: nat)
    requires IsRun(limit, states, actions) && k < |states| && Empty(states[0])
    ensures Consistent(limit, states[k]) && Agreement(states[k].tables)
    decreases k
  {
    if k > 0 {
      MembershipsAgree(limit, states, actions, k - 1);
      StepKeepsConsistent(limit, states[k - 1], actions[k - 1], states[k]);
      StepKeepsAgreement(limit, states[k - 1], actions[k - 1], states[k]);
    }
  }

  /** A redemption either changes nothing, or commits at once the claim, the membership and the event. */
  lemma RedeemIsAllOrNothing(limit: nat, s: State, a: Action, s': State)
    requires Consistent(limit, s) && Step(limit, s, a) == Some(s')
    requires (a.Execute? || a.Commit? || a.Abort?) && s.open[a.t].request.Redeem?
    ensures
      var r := s.open[a.t].request;
      if a.Commit? then
        && r.i in s.tables.invitations
        && s.tables.invitations[r.i].redeemedBy.None? && !s.tables.invitations[r.i].revoked
        && s.open[a.t].now < s.tables.invitations[r.i].expiresAt
        && var p := s.tables.invitations[r.i].project;
        && p in s.tables.projects && (p, r.user) !in s.tables.members
        && s'.tables ==
           s.tables.(invitations := s.tables.invitations[r.i := s.tables.invitations[r.i].(redeemedBy := Some(r.user))],
                     issued := s.tables.issued + {r.i}, members := s.tables.members[(p, r.user) := Viewer],
                     log := s.tables.log + [InvitationRedeemed(p, r.i, r.user)])
      else s'.tables == s.tables
  {
    if a.Commit? {
      RedeemCommits(limit, s.tables, s.open[a.t]);
    }
  }

  // ----- Final states of invitations -----

  predicate Settled(invitation: Invitation) {
    invitation.redeemedBy.Some? || invitation.revoked
  }

  lemma {:induction false} OtherWritesSpareInvitation(t: Tables, writes: seq<Write>, i: InvitationId)
    requires i in t.issued
    requires forall k :: 0 <= k < |writes| && writes[k].PutInvitation? ==> writes[k].i != i
    ensures
      var t' := Apply(t, writes);
      i in t'.issued && (i in t'.invitations ==> i in t.invitations && t'.invitations[i] == t.invitations[i])
    decreases |writes|
  {
    if writes != [] {
      OtherWritesSpareInvitation(ApplyWrite(t, writes[0]), writes[1..], i);
    }
  }

  /** A settled invitation never changes again, and the identifier of a deleted one never returns. */
  lemma StepKeepsSettled(limit: nat, s: State, a: Action, s': State, i: InvitationId)
    requires Consistent(limit, s) && Step(limit, s, a) == Some(s') && i in s.tables.issued
    requires i in s.tables.invitations ==> Settled(s.tables.invitations[i])
    ensures i in s'.tables.issued
    ensures i in s'.tables.invitations ==> i in s.tables.invitations && s'.tables.invitations[i] == s.tables.invitations[i]
  {
    if a.Commit? {
      assert Knows(limit, s.tables, s.open[a.t]);
      OtherWritesSpareInvitation(s.tables, s.open[a.t].writes, i);
    }
  }

  /** Once redeemed, an invitation stays redeemed by the same user and is never revoked; once revoked, it is never
      redeemed. */
  lemma {:induction false} SettledInvitationsAreFinal(
    limit: nat, states: seq<State>, actions: seq<Action>, j: nat, k: nat, i: InvitationId)
    requires IsRun(limit, states, actions) && j <= k < |states| && Empty(states[0])
    requires i in states[j].tables.invitations && Settled(states[j].tables.invitations[i])
    ensures i in states[k].tables.issued
    ensures i in states[k].tables.invitations ==> states[k].tables.invitations[i] == states[j].tables.invitations[i]
    decreases k
  {
    if j == k {
      MembershipsAgree(limit, states, actions, k);
    } else {
      SettledInvitationsAreFinal(limit, states, actions, j, k - 1, i);
      MembershipsAgree(limit, states, actions, k - 1);
      StepKeepsSettled(limit, states[k - 1], actions[k - 1], states[k], i);
    }
  }
}
