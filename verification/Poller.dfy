/** The polling controller of the administration page. Every `await` ends a step: what waits for a response is a task,
    and what waits for the clock is a timer of the browser. */
module Poller {
  import opened Wrappers
  import LivePaging

  type ProjectId = nat
  type TimerId = nat
  type TaskId = nat

  datatype Tab = Activity | Messages | Agents

  /** What is chosen in the selects of the page. */
  datatype Filters = Filters(agent: Option<nat>, eventType: Option<nat>, success: Option<bool>, acknowledged: Option<bool>)

  const NO_FILTERS := Filters(None, None, None, None)

  datatype Context = Context(filters: Filters, generation: nat, projectId: Option<ProjectId>, tab: Tab)

  /** Who waits for a load: a poll, the load after a change of context, or the start of the page. */
  datatype Caller =
    | Poll(owner: nat)
    | ContextLoad(owner: nat, context: Context)
    | Boot(owner: nat)

  datatype Sequences = Sequences(activity: nat, messages: nat)

  /** `Listing` waits for the projects, `Loading` for a full load and `Fetching` for what is new. After a load has settled
      its caller still has to resume. */
  datatype Task =
    | Listing(caller: Caller, context: Context)
    | Loading(caller: Caller, context: Context)
    | Settled(caller: Caller)
    | Fetching(caller: Caller, context: Context)

  /** What the page shows; `shown` lists the contexts of the requests that it comes from. */
  datatype Data = Data(
    shown: seq<Context>, summary: nat, agents: nat, activity: seq<nat>, messages: seq<nat>, sequences: Sequences)

  datatype Batch = Batch(received: seq<nat>, newest: nat)

  datatype Response =
    | Failure
    | Projects(ids: seq<ProjectId>)
    | Full(summary: nat, agents: nat, items: seq<nat>)
    | Incremental(summary: nat, agents: nat, activity: Option<Batch>, messages: Option<Batch>)

  datatype State = State(
    activePoll: Option<nat>, filters: Filters, generation: nat, pollOwner: nat, pollTimer: Option<TimerId>,
    projectId: Option<ProjectId>, ready: bool, tab: Tab, data: Data,
    timers: map<TimerId, nat>, tasks: map<TaskId, Task>, nextId: nat)

  // ----- Pure parts -----

  function Snapshot(s: State): Context {
    Context(s.filters, s.generation, s.projectId, s.tab)
  }

  predicate Current(s: State, context: Context) {
    context == Snapshot(s)
  }

  function FullData(context: Context, r: Response): Data
    requires r.Full?
  {
    var newest := LivePaging.NewestSequence(0, r.items);
    Data(
      [context], r.summary, r.agents,
      if context.tab == Activity then r.items else [],
      if context.tab == Messages then r.items else [],
      Sequences(if context.tab == Activity then newest else 0, if context.tab == Messages then newest else 0))
  }

  function Prepended(batch: Option<Batch>, rows: seq<nat>): seq<nat> {
    if batch.Some? then LivePaging.Reversed(batch.value.received) + rows else rows
  }

  function NewestOf(batch: Option<Batch>, sequence: nat): nat {
    if batch.Some? then batch.value.newest else sequence
  }

  function IncrementalData(data: Data, context: Context, r: Response): Data
    requires r.Incremental?
  {
    Data(
      data.shown + [context], r.summary, r.agents, Prepended(r.activity, data.activity), Prepended(r.messages, data.messages),
      Sequences(NewestOf(r.activity, data.sequences.activity), NewestOf(r.messages, data.sequences.messages)))
  }

  // ----- Specification of the handlers -----

  /** An invalidation retires the owner of the polls and its timer. */
  function Bumped(s: State, invalidatePoll: bool): State {
    var next := s.(generation := s.generation + 1);
    if invalidatePoll
    then next.(pollOwner := s.pollOwner + 1, activePoll := None, pollTimer := None,
               timers := if s.pollTimer.Some? then s.timers - {s.pollTimer.value} else s.timers)
    else next
  }

  function Scheduled(s: State, owner: nat): State {
    if owner != s.pollOwner then s
    else
      var kept := if s.pollTimer.Some? then s.timers - {s.pollTimer.value} else s.timers;
      s.(pollTimer := Some(s.nextId), timers := kept[s.nextId := owner], nextId := s.nextId + 1)
  }

  function Waiting(s: State, task: Task): State {
    s.(tasks := s.tasks[s.nextId := task], nextId := s.nextId + 1)
  }

  /** Without a project a load settles at once. */
  function LoadTask(caller: Caller, context: Context): Task {
    if context.projectId.None? then Settled(caller) else Loading(caller, context)
  }

  function ResetData(s: State, projectChanged: bool): Data {
    if projectChanged then Data([], 0, 0, [], [], Sequences(0, 0))
    else
      s.data.(sequences := Sequences(0, 0),
              activity := if s.tab == Activity then [] else s.data.activity,
              messages := if s.tab == Messages then [] else s.data.messages)
  }

  function ContextLoadStarted(s: State): State {
    Waiting(s, LoadTask(ContextLoad(s.pollOwner, Snapshot(s)), Snapshot(s)))
  }

  /** A change of project, tab or filters. */
  function ContextChanged(s: State, projectId: Option<ProjectId>, tab: Tab, filters: Filters, projectChanged: bool): State {
    var changed := s.(projectId := projectId, tab := tab, filters := filters, ready := false);
    ContextLoadStarted(Bumped(changed.(data := ResetData(changed, projectChanged)), true))
  }

  function PollTask(s: State, owner: nat): Task {
    if s.ready then Fetching(Poll(owner), Snapshot(s))
    else if s.projectId.None? then Listing(Poll(owner), Snapshot(s))
    else Loading(Poll(owner), Snapshot(s))
  }

  function PollStarted(s: State, owner: nat): State {
    if owner != s.pollOwner || s.activePoll == Some(owner) then s
    else Waiting(s.(activePoll := Some(owner)), PollTask(s, owner))
  }

  function TimerFired(s: State, t: TimerId): State
    requires t in s.timers
  {
    var fired := s.(timers := s.timers - {t});
    if s.timers[t] != s.pollOwner then fired else PollStarted(fired.(pollTimer := None), s.timers[t])
  }

  /** What a caller does at the end, whatever the outcome. */
  function Finished(s: State, caller: Caller): State {
    match caller
    case Poll(owner) =>
      if owner != s.pollOwner || s.activePoll != Some(owner) then s else Scheduled(s.(activePoll := None), owner)
    case ContextLoad(owner, context) => if Current(s, context) && owner == s.pollOwner then Scheduled(s, owner) else s
    case Boot(owner) => if owner == s.pollOwner then Scheduled(s, owner) else s
  }

  function ProjectsListed(s: State, t: TaskId, task: Task, r: Response): State
    requires task.Listing?
  {
    if !r.Projects? || !Current(s, task.context) then s.(tasks := s.tasks[t := Settled(task.caller)])
    else
      var projectId := if s.projectId.Some? then s.projectId else if r.ids != [] then Some(r.ids[0]) else None;
      if projectId.None? then s.(tasks := s.tasks[t := Settled(task.caller)])
      else
        var next := Bumped(s.(projectId := projectId), false);
        next.(tasks := s.tasks[t := Loading(task.caller, Snapshot(next))])
  }

  function ProjectLoaded(s: State, t: TaskId, task: Task, r: Response): State
    requires task.Loading?
  {
    var settled := s.(tasks := s.tasks[t := Settled(task.caller)]);
    if r.Full? && Current(s, task.context) then settled.(data := FullData(task.context, r), ready := true) else settled
  }

  function NewsFetched(s: State, t: TaskId, task: Task, r: Response): State
    requires task.Fetching?
  {
    var done := s.(tasks := s.tasks - {t});
    if r.Incremental? && Current(s, task.context)
    then Finished(done.(data := IncrementalData(s.data, task.context, r)), task.caller)
    else Finished(done, task.caller)
  }

  /** The response of what a task waits for; a settled task only resumes its caller. */
  function Answered(s: State, t: TaskId, r: Response): State
    requires t in s.tasks
  {
    var task := s.tasks[t];
    match task
    case Listing(_, _) => ProjectsListed(s, t, task, r)
    case Loading(_, _) => ProjectLoaded(s, t, task, r)
    case Settled(caller) => Finished(s.(tasks := s.tasks - {t}), caller)
    case Fetching(_, _) => NewsFetched(s, t, task, r)
  }

  // ----- The machine -----

  datatype Action =
    | SelectProject(projectId: ProjectId)
    | SelectTab(tab: Tab)
    | SelectFilters(filters: Filters)
    | ChangeVisibility
    | FireTimer(timer: TimerId)
    | Answer(task: TaskId, response: Response)

  predicate Enabled(s: State, a: Action) {
    (a.FireTimer? ==> a.timer in s.timers) && (a.Answer? ==> a.task in s.tasks)
  }

  function Step(s: State, a: Action): State
    requires Enabled(s, a)
  {
    match a
    case SelectProject(projectId) => ContextChanged(s, Some(projectId), s.tab, NO_FILTERS, true)
    case SelectTab(tab) => ContextChanged(s, s.projectId, tab, NO_FILTERS, false)
    case SelectFilters(filters) => ContextChanged(s, s.projectId, s.tab, filters, false)
    case ChangeVisibility => Scheduled(s, s.pollOwner)
    case FireTimer(timer) => TimerFired(s, timer)
    case Answer(task, response) => Answered(s, task, response)
  }

  /** The page before its start has got any answer. */
  function Initial(): State {
    var s := State(
      None, NO_FILTERS, 0, 0, None, None, false, Activity, Data([], 0, 0, [], [], Sequences(0, 0)), map[], map[], 0);
    Waiting(s, Listing(Boot(0), Snapshot(s)))
  }

  ghost predicate IsRun(states: seq<State>, actions: seq<Action>) {
    && |states| == |actions| + 1 && states[0] == Initial()
    && forall k :: 0 <= k < |actions| ==> Enabled(states[k], actions[k]) && states[k + 1] == Step(states[k], actions[k])
  }

  // ----- The controller -----

  class Controller {
    var activePoll: Option<nat>
    var filters: Filters
    var generation: nat
    var pollOwner: nat
    var pollTimer: Option<TimerId>
    var projectId: Option<ProjectId>
    var ready: bool
    var tab: Tab
    var data: Data
    var timers: map<TimerId, nat>
    var tasks: map<TaskId, Task>
    var nextId: nat

    ghost function Contents(): State
      reads this
    {
      State(activePoll, filters, generation, pollOwner, pollTimer, projectId, ready, tab, data, timers, tasks, nextId)
    }

    constructor ()
      ensures Contents() == Initial()
    {
      activePoll, filters, generation, pollOwner, pollTimer := None, NO_FILTERS, 0, 0, None;
      projectId, ready, tab := None, false, Activity;
      data := Data([], 0, 0, [], [], Sequences(0, 0));
      timers, tasks, nextId := map[], map[0 := Listing(Boot(0), Context(NO_FILTERS, 0, None, Activity))], 1;
    }

    method TakeSnapshot() returns (context: Context)
      ensures context == Snapshot(Contents())
    {
      context := Context(filters, generation, projectId, tab);
    }

    method BumpGeneration(invalidatePoll: bool) returns (context: Context)
      modifies this
      ensures Contents() == Bumped(old(Contents()), invalidatePoll) && context == Snapshot(Contents())
    {
      generation := generation + 1;
      if invalidatePoll {
        pollOwner := pollOwner + 1;
        activePoll := None;
        if pollTimer.Some? {
          timers := timers - {pollTimer.value};
        }
        pollTimer := None;
      }
      context := TakeSnapshot();
    }

    method SchedulePoll(owner: nat)
      modifies this
      ensures Contents() == Scheduled(old(Contents()), owner)
    {
      if owner != pollOwner {
        return;
      }
      if pollTimer.Some? {
        timers := timers - {pollTimer.value};
      }
      timers := timers[nextId := owner];
      pollTimer := Some(nextId);
      nextId := nextId + 1;
    }

    method Await(task: Task)
      modifies this
      ensures Contents() == Waiting(old(Contents()), task)
    {
      tasks := tasks[nextId := task];
      nextId := nextId + 1;
    }

    method ResetContext(projectChanged: bool)
      modifies this
      ensures Contents() == old(Contents()).(ready := false, data := ResetData(old(Contents()), projectChanged))
    {
      ready := false;
      data := data.(sequences := Sequences(0, 0));
      if projectChanged {
        data := Data([], 0, 0, [], [], data.sequences);
      } else if tab == Activity {
        data := data.(activity := []);
      } else if tab == Messages {
        data := data.(messages := []);
      }
    }

    method StartContextLoad(context: Context)
      requires context == Snapshot(Contents())
      modifies this
      ensures Contents() == ContextLoadStarted(old(Contents()))
    {
      Await(LoadTask(ContextLoad(pollOwner, context), context));
    }

    method OnProjectSelected(selected: ProjectId)
      modifies this
      ensures Contents() == Step(old(Contents()), SelectProject(selected))
    {
      projectId := Some(selected);
      filters := NO_FILTERS;
      ResetContext(true);
      var context := BumpGeneration(true);
      StartContextLoad(context);
    }

    method OnTabSelected(selected: Tab)
      modifies this
      ensures Contents() == Step(old(Contents()), SelectTab(selected))
    {
      tab := selected;
      filters := NO_FILTERS;
      ResetContext(false);
      var context := BumpGeneration(true);
      StartContextLoad(context);
    }

    method OnFiltersSelected(selected: Filters)
      modifies this
      ensures Contents() == Step(old(Contents()), SelectFilters(selected))
    {
      filters := selected;
      ResetContext(false);
      var context := BumpGeneration(true);
      StartContextLoad(context);
    }

    method OnVisibilityChanged()
      modifies this
      ensures Contents() == Step(old(Contents()), ChangeVisibility)
    {
      SchedulePoll(pollOwner);
    }

    method StartPoll(owner: nat)
      modifies this
      ensures Contents() == PollStarted(old(Contents()), owner)
    {
      if owner != pollOwner || activePoll == Some(owner) {
        return;
      }
      activePoll := Some(owner);
      var context := TakeSnapshot();
      if !ready {
        if projectId.None? {
          Await(Listing(Poll(owner), context));
        } else {
          Await(Loading(Poll(owner), context));
        }
      } else {
        Await(Fetching(Poll(owner), context));
      }
    }

    method OnTimer(timer: TimerId)
      requires timer in timers
      modifies this
      ensures Contents() == Step(old(Contents()), FireTimer(timer))
    {
      var owner := timers[timer];
      timers := timers - {timer};
      if owner != pollOwner {
        return;
      }
      pollTimer := None;
      StartPoll(owner);
    }

    method Finish(caller: Caller)
      modifies this
      ensures Contents() == Finished(old(Contents()), caller)
    {
      var context := TakeSnapshot();
      match caller {
        case Poll(owner) =>
          if owner != pollOwner || activePoll != Some(owner) {
            return;
          }
          activePoll := None;
          SchedulePoll(owner);
        case ContextLoad(owner, started) =>
          if context == started && owner == pollOwner {
            SchedulePoll(owner);
          }
        case Boot(owner) =>
          if owner == pollOwner {
            SchedulePoll(owner);
          }
      }
    }

    /** The continuation of `loadProjects` after its pages. */
    method ContinueListing(t: TaskId, r: Response)
      requires t in tasks && tasks[t].Listing?
      modifies this
      ensures Contents() == Step(old(Contents()), Answer(t, r))
    {
      var caller, started := tasks[t].caller, tasks[t].context;
      var context := TakeSnapshot();
      if r.Projects? && context == started {
        if projectId.None? && r.ids != [] {
          projectId := Some(r.ids[0]);
        }
        if projectId.Some? {
          var projectContext := BumpGeneration(false);
          tasks := tasks[t := Loading(caller, projectContext)];
          return;
        }
      }
      tasks := tasks[t := Settled(caller)];
    }

    /** The continuation of `loadProject` after its responses. */
    method ContinueLoading(t: TaskId, r: Response)
      requires t in tasks && tasks[t].Loading?
      modifies this
      ensures Contents() == Step(old(Contents()), Answer(t, r))
    {
      var caller, started := tasks[t].caller, tasks[t].context;
      var context := TakeSnapshot();
      if r.Full? && context == started {
        var newest := LivePaging.ReduceNewest(0, r.items);
        data := Data([context], r.summary, r.agents, [], [], Sequences(0, 0));
        if context.tab == Activity {
          data := data.(activity := r.items, sequences := Sequences(newest, 0));
        } else if context.tab == Messages {
          data := data.(messages := r.items, sequences := Sequences(0, newest));
        }
        ready := true;
      }
      tasks := tasks[t := Settled(caller)];
    }

    /** The continuation of `poll` after its incremental responses. */
    method ContinueFetching(t: TaskId, r: Response)
      requires t in tasks && tasks[t].Fetching?
      modifies this
      ensures Contents() == Step(old(Contents()), Answer(t, r))
    {
      var caller, started := tasks[t].caller, tasks[t].context;
      tasks := tasks - {t};
      var context := TakeSnapshot();
      if r.Incremental? && context == started {
        data := data.(shown := data.shown + [context], summary := r.summary, agents := r.agents);
        if r.activity.Some? {
          data := data.(activity := LivePaging.Reversed(r.activity.value.received) + data.activity,
                        sequences := data.sequences.(activity := r.activity.value.newest));
        }
        if r.messages.Some? {
          data := data.(messages := LivePaging.Reversed(r.messages.value.received) + data.messages,
                        sequences := data.sequences.(messages := r.messages.value.newest));
        }
      }
      Finish(caller);
    }

    method Resume(t: TaskId, r: Response)
      requires t in tasks && tasks[t].Settled?
      modifies this
      ensures Contents() == Step(old(Contents()), Answer(t, r))
    {
      var caller := tasks[t].caller;
      tasks := tasks - {t};
      Finish(caller);
    }
  }
}
