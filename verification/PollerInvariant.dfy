/** Polling never dies, and what is outdated never lands. */
module PollerInvariant {
  import opened Wrappers
  import opened Poller

  // ----- The invariant -----

  ghost predicate TimersOk(s: State) {
    && s.timers == (if s.pollTimer.Some? then map[s.pollTimer.value := s.pollOwner] else map[])
    && (s.pollTimer.Some? ==> s.pollTimer.value < s.nextId)
  }

  /** A context is of the past, or it is the current one. */
  predicate Known(s: State, context: Context) {
    context.generation < s.generation || context == Snapshot(s)
  }

  /** Only a poll or the start of the page lists the projects, only without a project, and under an owner that lasts as
      long as the generation. */
  predicate TaskOk(s: State, task: Task) {
    && task.caller.owner <= s.pollOwner
    && (task.caller.ContextLoad? ==> Known(s, task.caller.context))
    && (!task.Settled? ==> Known(s, task.context))
    && (task.Listing? ==>
          && !task.caller.ContextLoad? && task.context.projectId.None?
          && (task.context.generation == s.generation ==> task.caller.owner == s.pollOwner))
    && (task.Loading? ==> task.context.projectId.Some?)
    && (task.Fetching? ==> task.caller.Poll? && (task.context.generation == s.generation ==> task.caller.owner == s.pollOwner))
  }

  predicate PollsFor(s: State, t: TaskId, owner: nat) {
    t in s.tasks && s.tasks[t].caller == Caller.Poll(owner)
  }

  /** At most one poll of an owner is in flight, and a poll of the current owner is the active one. */
  ghost predicate PollsOk(s: State) {
    && (forall t, o, owner :: PollsFor(s, t, owner) && PollsFor(s, o, owner) ==> t == o)
    && (forall t :: PollsFor(s, t, s.pollOwner) ==> s.activePoll == Some(s.pollOwner))
    && (s.activePoll.Some? ==> s.activePoll.value == s.pollOwner && exists t :: PollsFor(s, t, s.pollOwner))
  }

  /** What is shown as ready was requested under the current context. */
  ghost predicate ShownOk(s: State) {
    s.ready ==> s.projectId.Some? && forall k :: 0 <= k < |s.data.shown| ==> s.data.shown[k] == Snapshot(s)
  }

  /** A task that will schedule the next poll when it finishes, unless the context changes again. */
  predicate Responsible(s: State, task: Task) {
    && task.caller.owner == s.pollOwner
    && (task.caller.ContextLoad? ==> Current(s, task.caller.context))
  }

  ghost predicate Alive(s: State) {
    s.pollTimer.Some? || exists t :: t in s.tasks && Responsible(s, s.tasks[t])
  }

  ghost predicate Invariant(s: State) {
    && TimersOk(s) && PollsOk(s) && ShownOk(s) && Alive(s)
    && (forall t :: t in s.tasks ==> t < s.nextId && TaskOk(s, s.tasks[t]))
  }

  // ----- The parts of the handlers -----

  /** All of the invariant but that polling goes on. */
  ghost predicate Sound(s: State) {
    && TimersOk(s) && PollsOk(s) && ShownOk(s)
    && (forall t :: t in s.tasks ==> t < s.nextId && TaskOk(s, s.tasks[t]))
  }

  lemma ScheduledIsSound(s: State, owner: nat)
    requires Sound(s)
    ensures Sound(Scheduled(s, owner)) && (owner == s.pollOwner ==> Scheduled(s, owner).pollTimer.Some?)
    ensures owner != s.pollOwner ==> Scheduled(s, owner) == s
  {
    var s' := Scheduled(s, owner);
    assert forall t, o :: PollsFor(s', t, o) <==> PollsFor(s, t, o);
  }

  lemma ChangedIsSound(s: State, projectId: Option<ProjectId>, tab: Tab, filters: Filters, projectChanged: bool)
    requires Sound(s)
    ensures
      var s' := ContextChanged(s, projectId, tab, filters, projectChanged);
      Sound(s') && Alive(s')
  {
    var s' := ContextChanged(s, projectId, tab, filters, projectChanged);
    forall t, o | PollsFor(s', t, o)
      ensures PollsFor(s, t, o)
    {
    }
    assert s.nextId in s'.tasks && Responsible(s', s'.tasks[s.nextId]);
    forall t | t in s'.tasks
      ensures t < s'.nextId && TaskOk(s', s'.tasks[t])
    {
      assert t != s.nextId ==> TaskOk(s, s.tasks[t]);
    }
  }

  lemma PollStartedIsSound(s: State)
    requires Sound(s)
    ensures Sound(PollStarted(s, s.pollOwner)) && Alive(PollStarted(s, s.pollOwner))
  {
    var s' := PollStarted(s, s.pollOwner);
    if s.activePoll == Some(s.pollOwner) {
      var t :| PollsFor(s, t, s.pollOwner);
      assert t in s'.tasks && Responsible(s', s'.tasks[t]);
    } else {
      assert PollsFor(s', s.nextId, s.pollOwner);
      assert s.nextId in s'.tasks && Responsible(s', s'.tasks[s.nextId]);
      forall t, o | PollsFor(s', t, o) && t != s.nextId
        ensures PollsFor(s, t, o)
      {
      }
      forall t | t in s'.tasks
        ensures t < s'.nextId && TaskOk(s', s'.tasks[t])
      {
        assert t != s.nextId ==> TaskOk(s, s.tasks[t]);
      }
    }
  }

  lemma TimerFiredIsSound(s: State, timer: TimerId)
    requires Invariant(s) && timer in s.timers
    ensures Invariant(TimerFired(s, timer))
  {
    var fired := s.(timers := s.timers - {timer}, pollTimer := None);
    assert Sound(fired) by {
      assert forall t, o :: PollsFor(fired, t, o) <==> PollsFor(s, t, o);
    }
    PollStartedIsSound(fired);
  }

  /** The state that a task leaves when it is over. */
  function Left(s: State, t: TaskId, data: Data): State {
    s.(tasks := s.tasks - {t}, data := data)
  }

  ghost predicate ShowsCurrent(s: State, data: Data) {
    s.ready ==> forall k :: 0 <= k < |data.shown| ==> data.shown[k] == Snapshot(s)
  }

  lemma ActivePollEnds(s: State, t: TaskId, data: Data)
    requires Invariant(s) && t in s.tasks && ShowsCurrent(s, data) && s.tasks[t].caller == Caller.Poll(s.pollOwner)
    ensures Sound(Left(s, t, data).(activePoll := None)) && s.activePoll == Some(s.pollOwner)
  {
    var freed := Left(s, t, data).(activePoll := None);
    assert PollsFor(s, t, s.pollOwner);
    forall o
      ensures !PollsFor(freed, o, s.pollOwner)
    {
      assert PollsFor(freed, o, s.pollOwner) ==> PollsFor(s, o, s.pollOwner) && o != t;
    }
    assert forall o, owner :: PollsFor(freed, o, owner) ==> PollsFor(s, o, owner);
    assert forall o :: o in freed.tasks ==> TaskOk(s, s.tasks[o]) && TaskOk(freed, freed.tasks[o]);
  }

  lemma OtherTaskEnds(s: State, t: TaskId, data: Data)
    requires Invariant(s) && t in s.tasks && ShowsCurrent(s, data) && s.tasks[t].caller != Caller.Poll(s.pollOwner)
    ensures Sound(Left(s, t, data))
  {
    var left := Left(s, t, data);
    assert forall o, owner :: PollsFor(left, o, owner) ==> PollsFor(s, o, owner);
    assert forall o :: PollsFor(s, o, s.pollOwner) ==> PollsFor(left, o, s.pollOwner);
    assert forall o :: o in left.tasks ==> TaskOk(s, s.tasks[o]) && TaskOk(left, left.tasks[o]);
  }

  /** A task that is over leaves, and its caller finishes. */
  lemma FinishedIsSound(s: State, t: TaskId, data: Data)
    requires Invariant(s) && t in s.tasks && ShowsCurrent(s, data)
    ensures Invariant(Finished(Left(s, t, data), s.tasks[t].caller))
  {
    if s.tasks[t].caller == Caller.Poll(s.pollOwner) {
      ActivePollEnds(s, t, data);
      ScheduledIsSound(Left(s, t, data).(activePoll := None), s.pollOwner);
    } else {
      OtherTaskEnds(s, t, data);
      ScheduledIsSound(Left(s, t, data), s.pollOwner);
      if !Responsible(s, s.tasks[t]) {
        OthersStayAlive(s, t, Left(s, t, data));
      }
    }
  }

  lemma OthersStayAlive(s: State, t: TaskId, left: State)
    requires Alive(s) && t in s.tasks && !Responsible(s, s.tasks[t])
    requires left.pollTimer == s.pollTimer && left.pollOwner == s.pollOwner && Snapshot(left) == Snapshot(s)
    requires left.tasks == s.tasks - {t}
    ensures Alive(left)
  {
    if s.pollTimer.None? {
      var o :| o in s.tasks && Responsible(s, s.tasks[o]);
      assert o in left.tasks && Responsible(left, left.tasks[o]);
    }
  }

  /** A task takes its next step under the same caller, and the context stays the same. */
  lemma MovedIsSound(s: State, t: TaskId, task: Task, data: Data, ready: bool)
    requires Invariant(s) && t in s.tasks && task.caller == s.tasks[t].caller && TaskOk(s, task)
    requires ready ==> s.projectId.Some? && forall k :: 0 <= k < |data.shown| ==> data.shown[k] == Snapshot(s)
    ensures Invariant(s.(tasks := s.tasks[t := task], data := data, ready := ready))
  {
    var s' := s.(tasks := s.tasks[t := task], data := data, ready := ready);
    assert forall o, owner :: PollsFor(s', o, owner) <==> PollsFor(s, o, owner);
    if s.pollTimer.None? {
      var o :| o in s.tasks && Responsible(s, s.tasks[o]);
      assert o in s'.tasks && Responsible(s', s'.tasks[o]);
    }
  }

  /** The only change of the generation under the same owner: whoever listed the projects carries on. */
  lemma ListedIsSound(s: State, t: TaskId, r: Response)
    requires Invariant(s) && t in s.tasks && s.tasks[t].Listing?
    ensures Invariant(ProjectsListed(s, t, s.tasks[t], r))
  {
    var task, s' := s.tasks[t], ProjectsListed(s, t, s.tasks[t], r);
    if s'.generation == s.generation {
      MovedIsSound(s, t, Settled(task.caller), s.data, s.ready);
    } else {
      assert TaskOk(s, task) && !s.ready;
      assert forall o, owner :: PollsFor(s', o, owner) <==> PollsFor(s, o, owner);
      assert t in s'.tasks && Responsible(s', s'.tasks[t]);
      forall o | o in s'.tasks
        ensures o < s'.nextId && TaskOk(s', s'.tasks[o])
      {
        assert TaskOk(s, s.tasks[o]);
      }
    }
  }

  lemma AnsweredIsSound(s: State, t: TaskId, r: Response)
    requires Invariant(s) && t in s.tasks
    ensures Invariant(Answered(s, t, r))
  {
    var task := s.tasks[t];
    assert TaskOk(s, task);
    match task
    case Listing(_, _) => ListedIsSound(s, t, r);
    case Loading(caller, context) =>
      if r.Full? && Current(s, context) {
        LoadedHasProject(s, task);
        MovedIsSound(s, t, Settled(caller), FullData(context, r), true);
      } else {
        MovedIsSound(s, t, Settled(caller), s.data, s.ready);
      }
    case Settled(_) =>
      FinishedIsSound(s, t, s.data);
      assert s.(tasks := s.tasks - {t}, data := s.data) == s.(tasks := s.tasks - {t});
    case Fetching(_, context) =>
      FinishedIsSound(s, t, if r.Incremental? && Current(s, context) then IncrementalData(s.data, context, r) else s.data);
  }

  lemma LoadedHasProject(s: State, task: Task)
    requires TaskOk(s, task) && task.Loading? && Current(s, task.context)
    ensures s.projectId.Some?
  {
  }

  // ----- Every run -----

  lemma StepKeepsInvariant(s: State, a: Action)
    requires Invariant(s) && Enabled(s, a)
    ensures Invariant(Step(s, a))
  {
    match a
    case SelectProject(projectId) => ChangedIsSound(s, Some(projectId), s.tab, NO_FILTERS, true);
    case SelectTab(tab) => ChangedIsSound(s, s.projectId, tab, NO_FILTERS, false);
    case SelectFilters(filters) => ChangedIsSound(s, s.projectId, s.tab, filters, false);
    case ChangeVisibility => ScheduledIsSound(s, s.pollOwner);
    case FireTimer(timer) => TimerFiredIsSound(s, timer);
    case Answer(task, response) => AnsweredIsSound(s, task, response);
  }

  lemma {:induction false} InvariantHolds(states: seq<State>, actions: seq<Action>, k: nat)
    requires IsRun(states, actions) && k < |states|
    ensures Invariant(states[k])
    decreases k
  {
    if k > 0 {
      InvariantHolds(states, actions, k - 1);
      StepKeepsInvariant(states[k - 1], actions[k - 1]);
    } else {
      assert 0 in states[0].tasks && Responsible(states[0], states[0].tasks[0]);
    }
  }

  /** In every reachable state at most one timer is pending, it is the controller's and belongs to the current owner, and
      at most one poll of each owner is in flight. */
  lemma AtMostOneTimerAndPoll(states: seq<State>, actions: seq<Action>, k: nat)
    requires IsRun(states, actions) && k < |states|
    ensures
      var s := states[k];
      && |s.timers| <= 1
      && (forall t :: t in s.timers ==> s.pollTimer == Some(t) && s.timers[t] == s.pollOwner)
      && (forall t, o :: t in s.tasks && o in s.tasks && s.tasks[t].caller.Poll? && s.tasks[o].caller == s.tasks[t].caller ==> t == o)
  {
    InvariantHolds(states, actions, k);
    var s := states[k];
    forall t, o | t in s.tasks && o in s.tasks && s.tasks[t].caller.Poll? && s.tasks[o].caller == s.tasks[t].caller
      ensures t == o
    {
      assert PollsFor(s, t, s.tasks[t].caller.owner) && PollsFor(s, o, s.tasks[t].caller.owner);
    }
  }

  /** In every reachable state a timer is pending, or a task is in flight that will schedule one. */
  lemma PollingNeverDies(states: seq<State>, actions: seq<Action>, k: nat)
    requires IsRun(states, actions) && k < |states|
    ensures
      var s := states[k];
      s.pollTimer.Some? || exists t :: t in s.tasks && Responsible(s, s.tasks[t])
  {
    InvariantHolds(states, actions, k);
  }

  /** How many answers a task still waits for. */
  function StepsLeft(task: Task): nat {
    match task
    case Listing(_, _) => 3
    case Loading(_, _) => 2
    case Settled(_) => 1
    case Fetching(_, _) => 1
  }

  /** With every answer a task comes nearer to its end; and a responsible task either stays responsible or leaves, at its
      end, a pending timer. */
  lemma ResponsibleTasksSchedule(s: State, t: TaskId, r: Response)
    requires Invariant(s) && t in s.tasks && Responsible(s, s.tasks[t])
    ensures
      var s' := Answered(s, t, r);
      if t in s'.tasks then StepsLeft(s'.tasks[t]) < StepsLeft(s.tasks[t]) && Responsible(s', s'.tasks[t])
      else s'.pollTimer.Some? && s'.pollTimer.value in s'.timers
  {
    var caller := s.tasks[t].caller;
    assert TaskOk(s, s.tasks[t]) && t < s.nextId;
    if caller.Poll? {
      assert PollsFor(s, t, s.pollOwner);
    }
  }

  /** A pending timer starts a poll of the current owner, unless one is in flight already. */
  lemma TimersPoll(s: State, timer: TimerId)
    requires Invariant(s) && timer in s.timers
    ensures
      var s' := TimerFired(s, timer);
      s'.pollOwner == s.pollOwner && s'.activePoll == Some(s'.pollOwner) && exists t :: PollsFor(s', t, s'.pollOwner)
  {
    TimerFiredIsSound(s, timer);
  }

  predicate Goes(s: State, a: Action, next: State) {
    Enabled(s, a) && next == Step(s, a)
  }

  ghost predicate IsPath(states: seq<State>, actions: seq<Action>) {
    |states| == |actions| + 1 && forall k :: 0 <= k < |actions| ==> Goes(states[k], actions[k], states[k + 1])
  }

  /** Nothing of the user's and no success: the waiting requests fail, and the clock runs. */
  predicate Unaided(a: Action) {
    a.FireTimer? || (a.Answer? && a.response == Failure)
  }

  lemma PathFrom(s: State, a: Action, states: seq<State>, actions: seq<Action>)
    requires IsPath(states, actions) && Goes(s, a, states[0])
    ensures IsPath([s] + states, [a] + actions)
  {
    forall k | 0 <= k < |actions| + 1
      ensures Goes(([s] + states)[k], ([a] + actions)[k], ([s] + states)[k + 1])
    {
      assert k > 0 ==> Goes(states[k - 1], actions[k - 1], states[k]);
    }
  }

  lemma {:induction false} ResponsibleTaskLeadsToPoll(
    s: State, t: TaskId)
    returns (states: seq<State>, actions: seq<Action>)
    requires Invariant(s) && t in s.tasks && Responsible(s, s.tasks[t])
    ensures IsPath(states, actions) && states[0] == s && |actions| <= StepsLeft(s.tasks[t]) + 1
    ensures forall k :: 0 <= k < |actions| ==> Unaided(actions[k])
    ensures states[|states| - 1].activePoll == Some(states[|states| - 1].pollOwner)
    decreases StepsLeft(s.tasks[t])
  {
    var a := Answer(t, Failure);
    var next := Step(s, a);
    StepKeepsInvariant(s, a);
    ResponsibleTasksSchedule(s, t, Failure);
    if t in next.tasks {
      states, actions := ResponsibleTaskLeadsToPoll(next, t);
    } else {
      var fire := FireTimer(next.pollTimer.value);
      TimersPoll(next, next.pollTimer.value);
      states, actions := [next, Step(next, fire)], [fire];
    }
    PathFrom(s, a, states, actions);
    states, actions := [s] + states, [a] + actions;
  }

  /** From every reachable state a poll of the current owner gets in flight within four steps, though every request fails
      and the user does nothing. */
  lemma PollAlwaysComes(s: State) returns (states: seq<State>, actions: seq<Action>)
    requires Invariant(s)
    ensures IsPath(states, actions) && states[0] == s && |actions| <= 4
    ensures forall k :: 0 <= k < |actions| ==> Unaided(actions[k])
    ensures states[|states| - 1].activePoll == Some(states[|states| - 1].pollOwner)
  {
    if s.pollTimer.Some? {
      TimersPoll(s, s.pollTimer.value);
      states, actions := [s, Step(s, FireTimer(s.pollTimer.value))], [FireTimer(s.pollTimer.value)];
    } else {
      var t :| t in s.tasks && Responsible(s, s.tasks[t]);
      states, actions := ResponsibleTaskLeadsToPoll(s, t);
    }
  }

  // ----- Nothing outdated lands -----

  /** A response requested under an older generation changes neither what is shown nor the context. */
  lemma OutdatedNeverLands(s: State, t: TaskId, r: Response)
    requires Invariant(s) && t in s.tasks && !s.tasks[t].Settled? && s.tasks[t].context.generation < s.generation
    ensures
      var s' := Answered(s, t, r);
      s'.data == s.data && s'.ready == s.ready && Snapshot(s') == Snapshot(s) && s'.pollOwner == s.pollOwner
  {
  }

  /** Whatever changes what is shown is a change of context by the user or a response that was requested under the very
      context in which it lands. */
  lemma OnlyCurrentResponsesLand(s: State, a: Action)
    requires Invariant(s) && Enabled(s, a) && Step(s, a).data != s.data
    ensures a.SelectProject? || a.SelectTab? || a.SelectFilters?
            || (&& a.Answer? && !s.tasks[a.task].Settled? && s.tasks[a.task].context == Snapshot(s)
                && Snapshot(Step(s, a)) == Snapshot(s))
  {
  }

  /** In every reachable state what is shown as ready comes from requests under the current project, tab and filters. */
  lemma ShownBelongsToTheContext(states: seq<State>, actions: seq<Action>, k: nat)
    requires IsRun(states, actions) && k < |states| && states[k].ready
    ensures
      var s := states[k];
      forall c :: c in s.data.shown ==>
        c.projectId == s.projectId && c.tab == s.tab && c.filters == s.filters && c.generation == s.generation
  {
    InvariantHolds(states, actions, k);
  }

  lemma StepKeepsGeneration(s: State, a: Action)
    requires Enabled(s, a)
    ensures s.generation <= Step(s, a).generation
  {
  }

  /** The generation never goes back, so what is once outdated stays outdated. */
  lemma {:induction false} GenerationsNeverGoBack(states: seq<State>, actions: seq<Action>, j: nat, k: nat)
    requires IsRun(states, actions) && j <= k < |states|
    ensures states[j].generation <= states[k].generation
    decreases k
  {
    if j < k {
      GenerationsNeverGoBack(states, actions, j, k - 1);
      StepKeepsGeneration(states[k - 1], actions[k - 1]);
    }
  }
}
