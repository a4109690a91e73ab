/** The project limit holds in every interleaving: all transactions that add an active project to an owner lock the
    owner's row before they count. */
module ProjectLimit {
  import opened Wrappers
  import opened ControlPlane
  import opened ControlPlaneInvariant

  /** No owner has more active projects than the limit; a limit of zero means no limit. */
  ghost predicate LimitKept(limit: nat, t: Tables) {
    limit != 0 ==> forall o: UserId :: ActiveCount(t.projects, o) <= limit
  }

  lemma PutProjectKeepsLimit(limit: nat, t: Tables, p: ProjectId, row: Project)
    requires LimitKept(limit, t)
    requires row.owner.Some? && row.status == Active ==> WithinLimit(limit, t, row.owner.value)
    ensures LimitKept(limit, ApplyWrite(t, PutProject(p, row)))
  {
    forall o: UserId
      ensures limit != 0 ==> ActiveCount(ApplyWrite(t, PutProject(p, row)).projects, o) <= limit
    {
      PutProjectCount(t.projects, p, row, o);
    }
  }

  lemma DropProjectKeepsLimit(limit: nat, t: Tables, p: ProjectId)
    requires LimitKept(limit, t)
    ensures LimitKept(limit, ApplyWrite(t, DropProject(p)))
  {
    forall o: UserId
      ensures limit != 0 ==> ActiveCount(ApplyWrite(t, DropProject(p)).projects, o) <= limit
    {
      DropProjectCount(t.projects, p, o);
    }
  }

  lemma {:induction false} OtherWritesKeepProjects(t: Tables, writes: seq<Write>)
    requires forall k :: 0 <= k < |writes| ==> !writes[k].PutProject? && !writes[k].DropProject?
    ensures Apply(t, writes).projects == t.projects
    decreases |writes|
  {
    if writes != [] {
      OtherWritesKeepProjects(ApplyWrite(t, writes[0]), writes[1..]);
    }
  }

  lemma FirstWriteKeepsLimit(limit: nat, t: Tables, x: Transaction)
    requires LimitKept(limit, t) && Knows(limit, t, x) && x.stage in {Recorded, Finished} && x.writes != []
    ensures LimitKept(limit, ApplyWrite(t, x.writes[0]))
  {
    match x.writes[0] {
      case PutProject(p, row) => PutProjectKeepsLimit(limit, t, p, row);
      case DropProject(p) => DropProjectKeepsLimit(limit, t, p);
      case _ =>
    }
  }

  lemma CommitKeepsLimit(limit: nat, t: Tables, x: Transaction)
    requires LimitKept(limit, t) && Knows(limit, t, x) && x.stage in {Recorded, Finished}
    ensures LimitKept(limit, Apply(t, x.writes))
  {
    if x.writes != [] {
      FirstWriteKeepsLimit(limit, t, x);
      OtherWritesKeepProjects(ApplyWrite(t, x.writes[0]), x.writes[1..]);
    }
  }

  lemma StepKeepsLimit(limit: nat, s: State, a: Action, s': State)
    requires Consistent(limit, s) && LimitKept(limit, s.tables) && Step(limit, s, a) == Some(s')
    ensures LimitKept(limit, s'.tables)
  {
    if a.Commit? {
      CommitKeepsLimit(limit, s.tables, s.open[a.t]);
    }
  }

  lemma {:induction false} LimitIsKept(limit: nat, states: seq<State>, actions: seq<Action>, k: nat)
    requires IsRun(limit, states, actions) && k < |states|
    requires states[0].open == map[] && LimitKept(limit, states[0].tables)
    ensures Consistent(limit, states[k]) && LimitKept(limit, states[k].tables)
    decreases k
  {
    if k > 0 {
      LimitIsKept(limit, states, actions, k - 1);
      StepKeepsConsistent(limit, states[k - 1], actions[k - 1], states[k]);
      StepKeepsLimit(limit, states[k - 1], actions[k - 1], states[k]);
    }
  }

  /** Under every interleaving of every kind of transaction, with commits, errors and aborts at any point, no owner
      ever has more active projects than the limit. */
  lemma ProjectLimitHolds(limit: nat, states: seq<State>, actions: seq<Action>, k: nat, o: UserId, active: set<ProjectId>)
    requires IsRun(limit, states, actions) && k < |states| && limit != 0
    requires states[0].open == map[] && LimitKept(limit, states[0].tables)
    requires
      var projects := states[k].tables.projects;
      forall p :: p in active ==> p in projects && projects[p].owner == Some(o) && projects[p].status == Active
    ensures |active| <= limit
  {
    LimitIsKept(limit, states, actions, k);
    var all := ActiveProjects(states[k].tables.projects, o);
    assert all == active + (all - active);
    assert ActiveCount(states[k].tables.projects, o) <= limit;
  }
}
