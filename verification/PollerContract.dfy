/** What the polling controller does on each event, written out for the states that runs reach: these statements use
    none of the functions that describe its handlers. */
module PollerContract {
  import opened Wrappers
  import opened Poller
  import opened PollerInvariant
  import LivePaging

  /** The only timer is the pending one, and it belongs to the current owner. */
  predicate OnlyTimer(s: State) {
    s.timers == if s.pollTimer.Some? then map[s.pollTimer.value := s.pollOwner] else map[]
  }

  /** What a request that starts now is for. */
  predicate IsNow(s: State, c: Context) {
    c.filters == s.filters && c.generation == s.generation && c.projectId == s.projectId && c.tab == s.tab
  }

  /** Only one task differs, and the identifiers in use. */
  predicate Starts(s: State, task: Task, s': State) {
    s'.tasks == s.tasks[s.nextId := task] && s'.nextId == s.nextId + 1
  }

  // ----- The user -----

  /** A choice of the user retires the owner of the polls with its timer, outdates every request, empties what it
      concerns, and loads anew. */
  lemma SelectionIsExact(s: State, a: Action)
    requires OnlyTimer(s) && (a.SelectProject? || a.SelectTab? || a.SelectFilters?)
    ensures
      var s' := Step(s, a);
      && s'.projectId == (if a.SelectProject? then Some(a.projectId) else s.projectId)
      && s'.tab == (if a.SelectTab? then a.tab else s.tab)
      && s'.filters == (if a.SelectFilters? then a.filters else Filters(None, None, None, None))
      && s'.generation == s.generation + 1 && s'.pollOwner == s.pollOwner + 1 && !s'.ready
      && s'.activePoll == None && s'.pollTimer == None && s'.timers == map[]
    ensures
      var s' := Step(s, a);
      && s'.data.sequences == Sequences(0, 0)
      && s'.data.summary == (if a.SelectProject? then 0 else s.data.summary)
      && s'.data.agents == (if a.SelectProject? then 0 else s.data.agents)
      && s'.data.shown == (if a.SelectProject? then [] else s.data.shown)
      && s'.data.activity == (if a.SelectProject? || s'.tab == Activity then [] else s.data.activity)
      && s'.data.messages == (if a.SelectProject? || s'.tab == Messages then [] else s.data.messages)
    ensures
      var s' := Step(s, a);
      var task := s'.tasks[s.nextId];
      && s.nextId in s'.tasks && Starts(s, task, s')
      && task.caller.ContextLoad? && task.caller.owner == s'.pollOwner && IsNow(s', task.caller.context)
      && (s'.projectId.Some? ==> task.Loading? && IsNow(s', task.context))
      && (s'.projectId.None? ==> task.Settled?)
  {
  }

  /** A change of visibility replaces the pending timer by a new one of the current owner. */
  lemma VisibilityIsExact(s: State)
    requires OnlyTimer(s)
    ensures
      Step(s, ChangeVisibility) ==
      s.(pollTimer := Some(s.nextId), timers := map[s.nextId := s.pollOwner], nextId := s.nextId + 1)
  {
    Replaced(s, s.pollOwner);
  }

  lemma Replaced(s: State, owner: nat)
    requires OnlyTimer(s)
    ensures
      Scheduled(s, owner) ==
      if owner == s.pollOwner
      then s.(pollTimer := Some(s.nextId), timers := map[s.nextId := s.pollOwner], nextId := s.nextId + 1) else s
  {
    if s.pollTimer.Some? {
      assert s.timers - {s.pollTimer.value} == map[];
    }
  }

  // ----- The clock -----

  /** When the timer fires, a poll begins, unless one is active: it fetches what is new if the page is ready, lists the
      projects if none is chosen, and loads otherwise. */
  lemma TimerIsExact(s: State, timer: TimerId)
    requires OnlyTimer(s) && timer in s.timers
    ensures
      var s' := Step(s, FireTimer(timer));
      if s.activePoll == Some(s.pollOwner) then s' == s.(pollTimer := None, timers := map[])
      else
        var task := s'.tasks[s.nextId];
        && s.nextId in s'.tasks
        && s' == s.(pollTimer := None, timers := map[], activePoll := Some(s.pollOwner), tasks := s.tasks[s.nextId := task],
                    nextId := s.nextId + 1)
        && task.caller == Caller.Poll(s.pollOwner) && !task.Settled? && IsNow(s, task.context)
        && (task.Fetching? <==> s.ready) && (task.Listing? <==> !s.ready && s.projectId.None?)
  {
    assert s.timers - {timer} == map[];
  }

  // ----- The server -----

  /** A listing that fails or is outdated settles without effect. Otherwise the chosen project is loaded under a new
      generation: the one that is chosen already, or else the first of the list. */
  lemma ListingIsExact(s: State, t: TaskId, r: Response)
    requires t in s.tasks && s.tasks[t].Listing?
    ensures
      var s', task := Step(s, Answer(t, r)), s.tasks[t];
      var lists := r.Projects? && IsNow(s, task.context) && (s.projectId.Some? || r.ids != []);
      if lists then
        var next := s'.tasks[t];
        && t in s'.tasks && next.Loading? && next.caller == task.caller && IsNow(s', next.context)
        && s' == s.(generation := s.generation + 1, tasks := s.tasks[t := next],
                    projectId := if s.projectId.Some? then s.projectId else Some(r.ids[0]))
      else s' == s.(tasks := s.tasks[t := Settled(task.caller)])
  {
  }

  /** A full load that fails or is outdated settles without effect. Otherwise what it brought is shown, and nothing else,
      up to the greatest sequence number among its rows. */
  lemma LoadIsExact(s: State, t: TaskId, r: Response)
    requires t in s.tasks && s.tasks[t].Loading?
    ensures
      var s', task := Step(s, Answer(t, r)), s.tasks[t];
      if r.Full? && IsNow(s, task.context) then
        && s' == s.(tasks := s.tasks[t := Settled(task.caller)], ready := true, data := s'.data)
        && s'.data.shown == [task.context] && s'.data.summary == r.summary && s'.data.agents == r.agents
        && s'.data.activity == (if s.tab == Activity then r.items else [])
        && s'.data.messages == (if s.tab == Messages then r.items else [])
        && IsGreatest(s'.data.sequences.activity, s'.data.activity)
        && IsGreatest(s'.data.sequences.messages, s'.data.messages)
      else s' == s.(tasks := s.tasks[t := Settled(task.caller)])
  {
    if r.Full? {
      LivePaging.NewestIsMaximum(0, r.items);
    }
  }

  predicate IsGreatest(n: nat, rows: seq<nat>) {
    (forall k :: 0 <= k < |rows| ==> rows[k] <= n) && (if rows == [] then n == 0 else n == 0 || n in rows)
  }

  /** The rows of a batch, newest first, before the rows that were there, and its newest sequence number; without a batch
      everything as it was. */
  predicate Gained(batch: Option<Batch>, before: seq<nat>, after: seq<nat>, sequence: nat, newest: nat) {
    if batch.None? then after == before && newest == sequence
    else
      var n := |batch.value.received|;
      && |after| == n + |before| && newest == batch.value.newest
      && (forall k :: 0 <= k < n ==> after[k] == batch.value.received[n - 1 - k])
      && (forall k :: 0 <= k < |before| ==> after[n + k] == before[k])
  }

  lemma GainedExactly(batch: Option<Batch>, before: seq<nat>, sequence: nat)
    ensures Gained(batch, before, Prepended(batch, before), sequence, NewestOf(batch, sequence))
  {
    if batch.Some? {
      var n := |batch.value.received|;
      forall k | 0 <= k < n
        ensures Prepended(batch, before)[k] == batch.value.received[n - 1 - k]
      {
        LivePaging.ReversedAt(batch.value.received, k);
      }
    }
  }

  /** A fetch that fails or is outdated brings nothing. Otherwise its batches are added. */
  lemma FetchIsExact(s: State, t: TaskId, r: Response)
    requires t in s.tasks && s.tasks[t].Fetching?
    ensures
      var s', data := Step(s, Answer(t, r)), s.data;
      if r.Incremental? && IsNow(s, s.tasks[t].context) then
        && s'.data.shown == data.shown + [s.tasks[t].context]
        && s'.data.summary == r.summary && s'.data.agents == r.agents
        && Gained(r.activity, data.activity, s'.data.activity, data.sequences.activity, s'.data.sequences.activity)
        && Gained(r.messages, data.messages, s'.data.messages, data.sequences.messages, s'.data.sequences.messages)
      else s'.data == data
  {
    if r.Incremental? {
      GainedExactly(r.activity, s.data.activity, s.data.sequences.activity);
      GainedExactly(r.messages, s.data.messages, s.data.sequences.messages);
    }
  }

  // ----- The end of a task -----

  /** The caller is the active poll of the current owner, a load for the context that is still current, or the start of
      the page under an owner that is still current. */
  predicate Resumes(s: State, caller: Caller) {
    match caller
    case Poll(owner) => owner == s.pollOwner && s.activePoll == Some(owner)
    case ContextLoad(owner, context) => owner == s.pollOwner && IsNow(s, context)
    case Boot(owner) => owner == s.pollOwner
  }

  /** A settled task and a fetch leave. Then the next poll is scheduled, in place of a pending one, if the caller is still
      wanted; and otherwise nothing happens. A poll that ends is no longer active. */
  lemma EndIsExact(s: State, t: TaskId, r: Response)
    requires OnlyTimer(s) && t in s.tasks && (s.tasks[t].Settled? || s.tasks[t].Fetching?)
    ensures
      var s', caller := Step(s, Answer(t, r)), s.tasks[t].caller;
      if Resumes(s, caller) then
        s' == s.(tasks := s.tasks - {t}, data := s'.data, activePoll := if caller.Poll? then None else s.activePoll,
                 pollTimer := Some(s.nextId), timers := map[s.nextId := s.pollOwner], nextId := s.nextId + 1)
      else s' == s.(tasks := s.tasks - {t}, data := s'.data)
    ensures s.tasks[t].Settled? ==> Step(s, Answer(t, r)).data == s.data
  {
    var caller := s.tasks[t].caller;
    var left := s.(tasks := s.tasks - {t}, data := Step(s, Answer(t, r)).data);
    assert Step(s, Answer(t, r)) == Finished(left, caller);
    CallerResumes(left, caller);
    assert Resumes(left, caller) == Resumes(s, caller);
  }

  lemma CallerResumes(s: State, caller: Caller)
    requires OnlyTimer(s)
    ensures
      Finished(s, caller) ==
      if Resumes(s, caller) then
        s.(activePoll := if caller.Poll? then None else s.activePoll,
           pollTimer := Some(s.nextId), timers := map[s.nextId := s.pollOwner], nextId := s.nextId + 1)
      else s
  {
    Replaced(s.(activePoll := None), s.pollOwner);
    Replaced(s, s.pollOwner);
  }

  /** The page starts without a project, and asks for the list. */
  lemma StartIsExact()
    ensures
      var s := Initial();
      && s.filters == Filters(None, None, None, None) && s.projectId == None && !s.ready && s.tab == Activity
      && s.activePoll == None && s.pollTimer == None && s.timers == map[] && s.pollOwner == 0 && s.generation == 0
      && s.data == Data([], 0, 0, [], [], Sequences(0, 0))
      && s.tasks == map[0 := Listing(Boot(0), Context(Filters(None, None, None, None), 0, None, Activity))] && s.nextId == 1
  {
  }

  /** All of this is about the states of runs. */
  lemma RunsHaveOneTimer(states: seq<State>, actions: seq<Action>, k: nat)
    requires IsRun(states, actions) && k < |states|
    ensures OnlyTimer(states[k])
  {
    InvariantHolds(states, actions, k);
  }
}
