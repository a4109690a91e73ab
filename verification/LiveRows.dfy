/** The rows of the administration page and the log behind them: when what is shown is the end of the log without a gap.
    All is said for one context, in runs in which the server answers that context truthfully from its tables. */
module LiveRows {
  import opened Wrappers
  import opened Poller
  import opened PollerInvariant
  import opened AdminViews
  import LivePaging

  // ----- What a tab shows -----

  function RowsOf(data: Data, tab: Tab): seq<nat> {
    if tab == Activity then data.activity else data.messages
  }

  function SequenceOf(data: Data, tab: Tab): nat {
    if tab == Activity then data.sequences.activity else data.sequences.messages
  }

  function BatchOf(r: Response, tab: Tab): Option<Batch>
    requires r.Incremental?
  {
    if tab == Activity then r.activity else r.messages
  }

  function Last(log: Log): nat {
    if log == [] then 0 else log[|log| - 1]
  }

  /** The rows, newest first, are the end of the log, and the next fetch continues where it ends. */
  predicate EndOf(log: Log, rows: seq<nat>, sequence: nat) {
    && |rows| <= |log| && sequence == Last(log)
    && forall k :: 0 <= k < |rows| ==> rows[k] == log[|log| - 1 - k]
  }

  // ----- Truthful runs -----

  predicate Fetches(s: State, t: TaskId) {
    t in s.tasks && s.tasks[t].Fetching?
  }

  /** The first of the states up to `k` since which the task waits for the same. */
  function Since(states: seq<State>, t: TaskId, k: nat): (j: nat)
    requires k < |states|
    ensures j <= k
  {
    if k > 0 && t in states[k - 1].tasks && t in states[k].tasks && states[k - 1].tasks[t] == states[k].tasks[t]
    then Since(states, t, k - 1)
    else k
  }

  /** The sequence number that the task fetches from: the one shown when it began. */
  function From(states: seq<State>, t: TaskId, k: nat, tab: Tab): nat
    requires k < |states|
  {
    SequenceOf(states[Since(states, t, k)].data, tab)
  }

  /** Moments, one after the other, of the states from `j` to `k`. */
  ghost predicate AreMoments(moments: seq<nat>, j: nat, k: nat) {
    && (forall i :: 0 <= i < |moments| ==> j <= moments[i] <= k)
    && (forall i, l :: 0 <= i < l < |moments| ==> moments[i] <= moments[l])
  }

  function Behind(logs: seq<Log>, moments: seq<nat>): (behind: seq<Log>)
    requires forall i :: 0 <= i < |moments| ==> moments[i] < |logs|
    ensures |behind| == |moments| && forall i :: 0 <= i < |behind| ==> behind[i] == logs[moments[i]]
  {
    seq(|moments|, i requires 0 <= i < |moments| => logs[moments[i]])
  }

  /** The batch is what the client's loop returns on pages of the log as it is when the server serves each. */
  ghost predicate FetchedFrom(batch: Batch, sequence: nat, logs: seq<Log>, j: nat, k: nat, limit: nat)
    requires k < |logs|
  {
    exists moments: seq<nat> :: AreMoments(moments, j, k)
      && LivePaging.Fetch(LivePaging.Replies(LivePaging.Pages(Behind(logs, moments), sequence, limit)), sequence, [])
         == LivePaging.Fetched(batch.newest, batch.received)
  }

  ghost predicate LoadedFrom(items: seq<nat>, logs: seq<Log>, j: nat, k: nat, limit: nat)
    requires k < |logs|
  {
    exists m :: j <= m <= k && items == LivePaging.History(logs[m], limit)
  }

  /** A full load lists the newest rows of the log, and a fetch returns what it finds in it, while the request waits. */
  ghost predicate Truthful(states: seq<State>, actions: seq<Action>, logs: seq<Log>, c: Context, limit: nat, k: nat)
    requires k < |actions| && k < |states| && k < |logs|
  {
    actions[k].Answer? && actions[k].task in states[k].tasks ==>
      var t, r := actions[k].task, actions[k].response;
      var task, since := states[k].tasks[t], Since(states, t, k);
      && (task.Loading? && task.context == c && r.Full? ==> LoadedFrom(r.items, logs, since, k, limit))
      && (task.Fetching? && task.context == c && r.Incremental? ==>
            && BatchOf(r, c.tab).Some?
            && FetchedFrom(BatchOf(r, c.tab).value, From(states, t, k, c.tab), logs, since, k, limit))
  }

  /** `logs[k]` is the log behind the context in state k. */
  ghost predicate Answers(states: seq<State>, actions: seq<Action>, logs: seq<Log>, c: Context, limit: nat) {
    && |logs| == |states| == |actions| + 1 && limit > 0 && c.tab != Agents
    && forall k :: 0 <= k < |actions| ==> Truthful(states, actions, logs, c, limit, k)
  }

  /** A run of the controller beside a history of the tables of the context's project. */
  ghost predicate IsTruthfulRun(states: seq<State>, actions: seq<Action>, tables: seq<Table>, c: Context, limit: nat) {
    IsRun(states, actions) && IsHistory(tables) && Answers(states, actions, Views(tables, c), c, limit)
  }

  /** The log only grows at its end. */
  ghost predicate GrowingAnswers(states: seq<State>, actions: seq<Action>, logs: seq<Log>, c: Context, limit: nat) {
    Answers(states, actions, logs, c, limit) && LivePaging.Growing(logs)
  }

  lemma TruthfulRunGrows(states: seq<State>, actions: seq<Action>, tables: seq<Table>, c: Context, limit: nat)
    requires IsTruthfulRun(states, actions, tables, c, limit) && GrowsAtEnd(c.tab, c.filters)
    ensures Observed(states, actions) && GrowingAnswers(states, actions, Views(tables, c), c, limit)
  {
    RunsAreObserved(states, actions);
    ViewsGrow(tables, c);
  }

  // ----- Steps -----

  predicate LoadLands(s: State, a: Action) {
    a.Answer? && a.task in s.tasks && s.tasks[a.task].Loading? && a.response.Full? && Current(s, s.tasks[a.task].context)
  }

  predicate FetchLands(s: State, a: Action) {
    a.Answer? && Fetches(s, a.task) && a.response.Incremental? && Current(s, s.tasks[a.task].context)
  }

  /** Within a generation only what lands changes what is shown. */
  predicate DataFollows(s: State, a: Action, s': State) {
    && s.generation <= s'.generation
    && (s'.ready ==> s'.generation == s.generation)
    && (s'.generation == s.generation ==>
          && Snapshot(s') == Snapshot(s)
          && s'.ready == (s.ready || LoadLands(s, a))
          && s'.data ==
             if LoadLands(s, a) then FullData(Snapshot(s), a.response)
             else if FetchLands(s, a) then IncrementalData(s.data, Snapshot(s), a.response)
             else s.data)
  }

  /** A fetch begins when what is shown is ready, and stays as it is until it ends. */
  predicate FetchFollows(s: State, a: Action, s': State, t: TaskId)
    requires Fetches(s', t)
  {
    var context := s'.tasks[t].context;
    if Fetches(s, t)
    then s.tasks[t] == s'.tasks[t] && Known(s, context) && !(a.Answer? && a.task == t)
    else s'.ready && context == Snapshot(s')
  }

  ghost predicate OneCurrentFetch(s: State) {
    forall t, o :: Fetches(s, t) && Fetches(s, o) && Current(s, s.tasks[t].context) && Current(s, s.tasks[o].context) ==> t == o
  }

  ghost predicate Follows(s: State, a: Action, s': State) {
    && DataFollows(s, a, s') && OneCurrentFetch(s)
    && forall t :: Fetches(s', t) ==> FetchFollows(s, a, s', t)
  }

  /** All that matters here of a run. */
  ghost predicate Observed(states: seq<State>, actions: seq<Action>) {
    && |states| == |actions| + 1 && !states[0].ready && (forall t :: !Fetches(states[0], t))
    && forall k :: 0 <= k < |actions| ==> Follows(states[k], actions[k], states[k + 1])
  }

  lemma StepOnData(s: State, a: Action)
    requires Invariant(s) && Enabled(s, a)
    ensures DataFollows(s, a, Step(s, a))
  {
    match a
    case Answer(t, r) =>
      assert TaskOk(s, s.tasks[t]);
      AnswerOnData(s, t, r);
    case _ =>
  }

  lemma AnswerOnData(s: State, t: TaskId, r: Response)
    requires t in s.tasks && TaskOk(s, s.tasks[t]) && ShownOk(s)
    ensures DataFollows(s, Answer(t, r), Answered(s, t, r))
  {
  }

  lemma StepOnFetch(s: State, a: Action, t: TaskId)
    requires Invariant(s) && Enabled(s, a) && Fetches(Step(s, a), t)
    ensures FetchFollows(s, a, Step(s, a), t)
  {
    assert t in s.tasks ==> t < s.nextId && TaskOk(s, s.tasks[t]);
    match a
    case Answer(o, r) => AnswerOnFetch(s, o, r, t);
    case FireTimer(_) =>
    case _ =>
  }

  lemma AnswerOnFetch(s: State, o: TaskId, r: Response, t: TaskId)
    requires o in s.tasks && Fetches(Answered(s, o, r), t) && (t in s.tasks ==> t < s.nextId && TaskOk(s, s.tasks[t]))
    ensures FetchFollows(s, Answer(o, r), Answered(s, o, r), t)
  {
  }

  lemma FetchesAreOne(s: State)
    requires Invariant(s)
    ensures OneCurrentFetch(s)
  {
    forall t, o | Fetches(s, t) && Fetches(s, o) && Current(s, s.tasks[t].context) && Current(s, s.tasks[o].context)
      ensures t == o
    {
      assert TaskOk(s, s.tasks[t]) && TaskOk(s, s.tasks[o]);
      assert PollsFor(s, t, s.pollOwner) && PollsFor(s, o, s.pollOwner);
    }
  }

  lemma StepFollows(s: State, a: Action)
    requires Invariant(s) && Enabled(s, a)
    ensures Follows(s, a, Step(s, a))
  {
    StepOnData(s, a);
    FetchesAreOne(s);
    forall t | Fetches(Step(s, a), t)
      ensures FetchFollows(s, a, Step(s, a), t)
    {
      StepOnFetch(s, a, t);
    }
  }

  lemma RunsAreObserved(states: seq<State>, actions: seq<Action>)
    requires IsRun(states, actions)
    ensures Observed(states, actions)
  {
    forall k | 0 <= k < |actions|
      ensures Follows(states[k], actions[k], states[k + 1])
    {
      InvariantHolds(states, actions, k);
      StepFollows(states[k], actions[k]);
    }
  }

  lemma {:induction false} FetchBegan(states: seq<State>, actions: seq<Action>, t: TaskId, k: nat)
    requires Observed(states, actions) && k < |states| && Fetches(states[k], t)
    ensures
      var j := Since(states, t, k);
      states[j].ready && states[k].tasks[t].context == Snapshot(states[j])
    decreases k
  {
    if k > 0 {
      assert Follows(states[k - 1], actions[k - 1], states[k]);
      if Fetches(states[k - 1], t) {
        FetchBegan(states, actions, t, k - 1);
      }
    }
  }

  // ----- What lands -----

  lemma LoadedRows(items: seq<nat>, logs: seq<Log>, j: nat, k: nat, limit: nat) returns (m: nat)
    requires LivePaging.Growing(logs) && limit > 0 && k < |logs| && LoadedFrom(items, logs, j, k, limit)
    ensures m <= k && EndOf(logs[m], items, LivePaging.NewestSequence(0, items)) && |items| == Least(|logs[m]|, limit)
  {
    m :| j <= m <= k && items == LivePaging.History(logs[m], limit);
    HistoryContinues(logs[m], limit);
  }

  lemma HistoryContinues(log: Log, limit: nat)
    requires LivePaging.Ascending(log) && limit > 0
    ensures
      var items := LivePaging.History(log, limit);
      EndOf(log, items, LivePaging.NewestSequence(0, items)) && |items| == Least(|log|, limit)
  {
    LivePaging.LoadContinuesAtTheEnd(log, limit);
    HistoryIsEnd(log, limit);
  }

  lemma HistoryIsEnd(log: Log, limit: nat)
    ensures
      var items := LivePaging.History(log, limit);
      |items| == Least(|log|, limit) && forall k :: 0 <= k < |items| ==> items[k] == log[|log| - 1 - k]
  {
    forall k | 0 <= k < Least(|log|, limit)
      ensures LivePaging.History(log, limit)[k] == log[|log| - 1 - k]
    {
      LivePaging.ReversedAt(LivePaging.Shown(log, limit), k);
    }
  }

  lemma FetchedRows(batch: Batch, sequence: nat, logs: seq<Log>, j: nat, k: nat, limit: nat) returns (m: nat)
    requires LivePaging.Growing(logs) && limit > 0 && k < |logs| && FetchedFrom(batch, sequence, logs, j, k, limit)
    ensures m <= k && batch.received == LivePaging.Above(logs[m], sequence)
    ensures batch.newest == if batch.received == [] then sequence else Last(logs[m])
  {
    var moments: seq<nat> :| AreMoments(moments, j, k)
      && LivePaging.Fetch(LivePaging.Replies(LivePaging.Pages(Behind(logs, moments), sequence, limit)), sequence, [])
         == LivePaging.Fetched(batch.newest, batch.received);
    BehindGrows(logs, moments, j, k);
    var n := LastRequest(Behind(logs, moments), sequence, limit, batch);
    m := moments[n];
    NewestAbove(logs[m], sequence);
  }

  lemma BehindGrows(logs: seq<Log>, moments: seq<nat>, j: nat, k: nat)
    requires LivePaging.Growing(logs) && k < |logs| && AreMoments(moments, j, k)
    ensures LivePaging.Growing(Behind(logs, moments))
  {
    var behind := Behind(logs, moments);
    forall i, l | 0 <= i <= l < |behind|
      ensures LivePaging.Ascending(behind[i]) && behind[i] <= behind[l]
    {
      assert moments[i] <= moments[l];
    }
  }

  lemma LastRequest(behind: seq<Log>, sequence: nat, limit: nat, batch: Batch) returns (n: nat)
    requires LivePaging.Growing(behind) && limit > 0
    requires
      LivePaging.Fetch(LivePaging.Replies(LivePaging.Pages(behind, sequence, limit)), sequence, [])
      == LivePaging.Fetched(batch.newest, batch.received)
    ensures n < |behind| && batch.received == LivePaging.Above(behind[n], sequence)
    ensures batch.newest == LivePaging.NewestSequence(sequence, batch.received)
  {
    var pages := LivePaging.Pages(behind, sequence, limit);
    LivePaging.FetchIsExact(behind, sequence, limit, []);
    assert LivePaging.Ended(pages);
    n := |pages| - 1;
    assert [] + LivePaging.Above(behind[n], sequence) == LivePaging.Above(behind[n], sequence);
  }

  lemma NewestAbove(log: Log, sequence: nat)
    requires LivePaging.Ascending(log)
    ensures
      var new' := LivePaging.Above(log, sequence);
      LivePaging.NewestSequence(sequence, new') == if new' == [] then sequence else Last(log)
  {
    var low, high := LivePaging.Split(log, sequence);
    assert forall k :: 0 <= k < |high| ==> high[k] == log[|low| + k];
    LivePaging.NewestIsLast(sequence, high);
  }

  /** Rows fetched from the very end of what is shown continue it. */
  lemma FetchContinues(log: Log, later: Log, rows: seq<nat>, limit: nat) returns (end: Log)
    requires LivePaging.Ascending(log) && LivePaging.Ascending(later) && (log <= later || later <= log)
    requires EndOf(log, rows, Last(log)) && |rows| >= Least(|log|, limit)
    ensures end == log || end == later
    ensures
      var received := LivePaging.Above(later, Last(log));
      var after := LivePaging.Reversed(received) + rows;
      && EndOf(end, after, if received == [] then Last(log) else Last(later)) && |after| >= Least(|end|, limit)
  {
    var received := LivePaging.Above(later, Last(log));
    if log <= later {
      end := later;
      LivePaging.NewRowsAreAbove(log, later, Last(log));
      EndGrows(log, received, later, rows);
    } else {
      end := log;
      LivePaging.AboveNone(later, Last(log));
      assert LivePaging.Reversed(received) + rows == rows;
    }
  }

  lemma EndGrows(log: Log, received: seq<nat>, later: Log, rows: seq<nat>)
    requires later == log + received && EndOf(log, rows, Last(log))
    ensures EndOf(later, LivePaging.Reversed(received) + rows, Last(later))
  {
    var after := LivePaging.Reversed(received) + rows;
    forall k | 0 <= k < |after|
      ensures after[k] == later[|later| - 1 - k]
    {
      if k < |received| {
        LivePaging.ReversedAt(received, k);
      }
    }
  }

  // ----- Without overlap there is no gap -----

  /** What is shown is the end of one of the logs without a gap. */
  ghost predicate GapFree(data: Data, tab: Tab, logs: seq<Log>, k: nat)
    requires k < |logs|
  {
    exists m :: 0 <= m <= k && EndOf(logs[m], RowsOf(data, tab), SequenceOf(data, tab))
  }

  /** A full load of the context lands while one of its fetches is in flight. */
  ghost predicate Overlaps(s: State, a: Action, c: Context) {
    LoadLands(s, a) && Snapshot(s) == c && exists t :: Fetches(s, t) && s.tasks[t].context == c
  }

  ghost predicate NoOverlap(states: seq<State>, actions: seq<Action>, c: Context, k: nat)
    requires k <= |actions| && k <= |states|
  {
    forall j :: 0 <= j < k ==> !Overlaps(states[j], actions[j], c)
  }

  /** Then every fetch in flight has begun at the sequence number that is shown. */
  lemma {:induction false} FetchesFromTheEnd(states: seq<State>, actions: seq<Action>, c: Context, t: TaskId, k: nat)
    requires Observed(states, actions) && k < |states| && NoOverlap(states, actions, c, k)
    requires Fetches(states[k], t) && states[k].tasks[t].context == c == Snapshot(states[k])
    ensures From(states, t, k, c.tab) == SequenceOf(states[k].data, c.tab)
    decreases k
  {
    if k > 0 && Fetches(states[k - 1], t) {
      assert Follows(states[k - 1], actions[k - 1], states[k]);
      FetchGoesOn(states[k - 1], actions[k - 1], states[k], c, t);
      FetchesFromTheEnd(states, actions, c, t, k - 1);
    }
  }

  /** While a fetch of the context is in flight, only a load changes what is shown. */
  lemma FetchGoesOn(s: State, a: Action, s': State, c: Context, t: TaskId)
    requires Follows(s, a, s') && Fetches(s, t) && Fetches(s', t) && s'.tasks[t].context == c == Snapshot(s')
    ensures s.tasks[t].context == c == Snapshot(s) && (!Overlaps(s, a, c) ==> s'.data == s.data)
  {
    assert FetchFollows(s, a, s', t);
  }

  lemma LogsGrow(logs: seq<Log>, m: nat, n: nat)
    requires LivePaging.Growing(logs) && m < |logs| && n < |logs|
    ensures LivePaging.Ascending(logs[m]) && LivePaging.Ascending(logs[n]) && (logs[m] <= logs[n] || logs[n] <= logs[m])
  {
  }

  lemma LandedLoad(states: seq<State>, actions: seq<Action>, logs: seq<Log>, c: Context, limit: nat, k: nat) returns (m: nat)
    requires GrowingAnswers(states, actions, logs, c, limit) && k < |actions|
    requires LoadLands(states[k], actions[k]) && Snapshot(states[k]) == c
    ensures m <= k
    ensures
      var data := FullData(c, actions[k].response);
      EndOf(logs[m], RowsOf(data, c.tab), SequenceOf(data, c.tab)) && |RowsOf(data, c.tab)| >= Least(|logs[m]|, limit)
  {
    assert Truthful(states, actions, logs, c, limit, k);
    m := LoadedRows(actions[k].response.items, logs, Since(states, actions[k].task, k), k, limit);
  }

  lemma LandedFetch(states: seq<State>, actions: seq<Action>, logs: seq<Log>, c: Context, limit: nat, k: nat) returns (m: nat)
    requires GrowingAnswers(states, actions, logs, c, limit) && k < |actions|
    requires FetchLands(states[k], actions[k]) && Snapshot(states[k]) == c
    ensures m <= k
    ensures
      var from := From(states, actions[k].task, k, c.tab);
      var received := LivePaging.Above(logs[m], from);
      var data := IncrementalData(states[k].data, c, actions[k].response);
      && RowsOf(data, c.tab) == LivePaging.Reversed(received) + RowsOf(states[k].data, c.tab)
      && SequenceOf(data, c.tab) == if received == [] then from else Last(logs[m])
  {
    assert Truthful(states, actions, logs, c, limit, k);
    var t := actions[k].task;
    m := FetchedRows(BatchOf(actions[k].response, c.tab).value, From(states, t, k, c.tab), logs, Since(states, t, k), k, limit);
  }

  lemma {:induction false} ShownWithoutOverlap(
    states: seq<State>, actions: seq<Action>, logs: seq<Log>, c: Context, limit: nat, k: nat)
    returns (m: nat)
    requires Observed(states, actions) && GrowingAnswers(states, actions, logs, c, limit)
    requires k < |states| && NoOverlap(states, actions, c, k) && states[k].ready && Snapshot(states[k]) == c
    ensures m <= k
    ensures
      var rows := RowsOf(states[k].data, c.tab);
      EndOf(logs[m], rows, SequenceOf(states[k].data, c.tab)) && |rows| >= Least(|logs[m]|, limit)
    decreases k
  {
    var s, a := states[k - 1], actions[k - 1];
    assert Follows(s, a, states[k]);
    if LoadLands(s, a) {
      m := LandedLoad(states, actions, logs, c, limit, k - 1);
    } else {
      m := ShownWithoutOverlap(states, actions, logs, c, limit, k - 1);
      if FetchLands(s, a) {
        FetchesFromTheEnd(states, actions, c, a.task, k - 1);
        var n := LandedFetch(states, actions, logs, c, limit, k - 1);
        LogsGrow(logs, m, n);
        var end := FetchContinues(logs[m], logs[n], RowsOf(s.data, c.tab), limit);
        m := if end == logs[m] then m else n;
      }
    }
  }

  /** In every truthful run in which no full load overlaps a fetch, and unless messages are filtered by acknowledgement, the
      rows shown for the context are the end of the log as it was at some time, without a gap, and at least the newest rows
      that a full load lists. */
  lemma RowsShownHaveNoGap(states: seq<State>, actions: seq<Action>, tables: seq<Table>, c: Context, limit: nat, k: nat)
    requires IsTruthfulRun(states, actions, tables, c, limit) && GrowsAtEnd(c.tab, c.filters)
    requires k < |states| && NoOverlap(states, actions, c, k) && states[k].ready && Snapshot(states[k]) == c
    ensures
      var rows, logs := RowsOf(states[k].data, c.tab), Views(tables, c);
      exists m :: 0 <= m <= k && EndOf(logs[m], rows, SequenceOf(states[k].data, c.tab)) && |rows| >= Least(|logs[m]|, limit)
  {
    TruthfulRunGrows(states, actions, tables, c, limit);
    var m := ShownWithoutOverlap(states, actions, Views(tables, c), c, limit, k);
  }

  // ----- With overlap: the exact condition -----

  lemma FetchEnds(
    states: seq<State>, actions: seq<Action>, logs: seq<Log>, c: Context, limit: nat, k: nat, begin: nat)
    returns (m: nat)
    requires GrowingAnswers(states, actions, logs, c, limit) && k < |actions| && begin <= k
    requires FetchLands(states[k], actions[k]) && Snapshot(states[k]) == c
    requires From(states, actions[k].task, k, c.tab) == Last(logs[begin])
    ensures m <= k && SequenceOf(IncrementalData(states[k].data, c, actions[k].response), c.tab) == Last(logs[m])
  {
    var later := LandedFetch(states, actions, logs, c, limit, k);
    m := if LivePaging.Above(logs[later], Last(logs[begin])) == [] then begin else later;
  }

  /** In every truthful run the page continues at the end of some log, though rows may be missing. */
  lemma {:induction false} SequencesAreEnds(
    states: seq<State>, actions: seq<Action>, logs: seq<Log>, c: Context, limit: nat, k: nat)
    returns (m: nat)
    requires Observed(states, actions) && GrowingAnswers(states, actions, logs, c, limit)
    requires k < |states| && states[k].ready && Snapshot(states[k]) == c
    ensures m <= k && SequenceOf(states[k].data, c.tab) == Last(logs[m])
    decreases k
  {
    var s, a := states[k - 1], actions[k - 1];
    assert Follows(s, a, states[k]);
    if LoadLands(s, a) {
      m := LandedLoad(states, actions, logs, c, limit, k - 1);
    } else if FetchLands(s, a) {
      FetchBegan(states, actions, a.task, k - 1);
      var begin := SequencesAreEnds(states, actions, logs, c, limit, Since(states, a.task, k - 1));
      m := FetchEnds(states, actions, logs, c, limit, k - 1, begin);
    } else {
      m := SequencesAreEnds(states, actions, logs, c, limit, k - 1);
    }
  }

  /** No log ends between two neighbours of another. */
  lemma NoneBetween(begin: Log, end: Log, p: nat)
    requires LivePaging.Ascending(begin) && LivePaging.Ascending(end) && (begin <= end || end <= begin)
    requires p + 1 < |end| && Last(begin) < end[p + 1]
    ensures Last(begin) <= end[p]
  {
    if begin != [] {
      var k := Least(|begin| - 1, p + 1);
      assert begin[k] == end[k];
    }
  }

  /** The first row beyond where a log ends, if it is beyond another log too, comes after that one's last row. */
  lemma NoneMissed(log: Log, later: Log, i: nat, sequence: nat)
    requires LivePaging.Ascending(log) && LivePaging.Ascending(later) && (log <= later || later <= log)
    requires i < |later| && Last(log) < later[i] && forall k :: 0 <= k < i ==> later[k] <= sequence
    ensures Last(log) <= sequence
  {
    if log != [] {
      var k := Least(|log| - 1, i);
      assert log[k] == later[k];
    }
  }

  /** Rows fetched from elsewhere do not continue what is shown. */
  lemma MisplacedFetch(log: Log, begin: Log, later: Log, end: Log, rows: seq<nat>)
    requires LivePaging.Ascending(log) && LivePaging.Ascending(later) && (log <= later || later <= log)
    requires LivePaging.Ascending(begin) && LivePaging.Ascending(end) && (begin <= end || end <= begin)
    requires rows != [] && EndOf(log, rows, Last(log))
    requires
      var received := LivePaging.Above(later, Last(begin));
      EndOf(end, LivePaging.Reversed(received) + rows, if received == [] then Last(begin) else Last(later))
    ensures Last(begin) == Last(log)
  {
    var received := LivePaging.Above(later, Last(begin));
    if received == [] {
      assert LivePaging.Reversed(received) + rows == rows;
      assert rows[0] == end[|end| - 1];
    } else {
      RowsBelow(end, received, rows);
      assert rows[0] == log[|log| - 1] && rows[0] == end[(|end| - 1 - |received|) - 0];
      MisplacedRow(log, begin, later, end, |end| - 1 - |received|);
    }
  }

  lemma MisplacedRow(log: Log, begin: Log, later: Log, end: Log, p: nat)
    requires LivePaging.Ascending(log) && LivePaging.Ascending(later) && (log <= later || later <= log)
    requires LivePaging.Ascending(begin) && LivePaging.Ascending(end) && (begin <= end || end <= begin)
    requires p + 1 < |end| && end[p] == Last(log)
    requires
      var received := LivePaging.Above(later, Last(begin));
      received != [] && end[p + 1] == received[0]
    ensures Last(begin) == Last(log)
  {
    var low, received := LivePaging.Split(later, Last(begin));
    assert later[|low|] == received[0];
    NoneBetween(begin, end, p);
    NoneMissed(log, later, |low|, Last(begin));
  }

  lemma Lands(logs: seq<Log>, k: nat, m: nat, begin: nat, later: nat, data: Data, data': Data, tab: Tab)
    requires LivePaging.Growing(logs) && m <= k < |logs| && begin <= k && later <= k
    requires EndOf(logs[m], RowsOf(data, tab), SequenceOf(data, tab))
    requires
      var received := LivePaging.Above(logs[later], Last(logs[begin]));
      && RowsOf(data', tab) == LivePaging.Reversed(received) + RowsOf(data, tab)
      && SequenceOf(data', tab) == if received == [] then Last(logs[begin]) else Last(logs[later])
    ensures GapFree(data', tab, logs, k) <==> Last(logs[begin]) == SequenceOf(data, tab) || RowsOf(data, tab) == []
  {
    LogsGrow(logs, m, later);
    if RowsOf(data, tab) == [] {
      FetchOnNothing(logs[begin], logs[later]);
    } else if Last(logs[begin]) == SequenceOf(data, tab) {
      var end := FetchContinues(logs[m], logs[later], RowsOf(data, tab), 0);
    } else if GapFree(data', tab, logs, k) {
      var end :| 0 <= end <= k && EndOf(logs[end], RowsOf(data', tab), SequenceOf(data', tab));
      LogsGrow(logs, begin, end);
      MisplacedFetch(logs[m], logs[begin], logs[later], logs[end], RowsOf(data, tab));
    }
  }

  lemma FetchOnNothing(begin: Log, later: Log)
    requires LivePaging.Ascending(later)
    ensures
      var received := LivePaging.Above(later, Last(begin));
      EndOf(if received == [] then begin else later, LivePaging.Reversed(received) + [],
            if received == [] then Last(begin) else Last(later))
  {
    var low, received := LivePaging.Split(later, Last(begin));
    forall k | 0 <= k < |received|
      ensures LivePaging.Reversed(received)[k] == later[|later| - 1 - k]
    {
      LivePaging.ReversedAt(received, k);
    }
  }

  /** Where a landing fetch began: at the end of some log. */
  lemma LandingBegan(states: seq<State>, actions: seq<Action>, logs: seq<Log>, c: Context, limit: nat, k: nat)
    returns (begin: nat)
    requires Observed(states, actions) && GrowingAnswers(states, actions, logs, c, limit) && k < |actions|
    requires FetchLands(states[k], actions[k]) && Snapshot(states[k]) == c
    ensures begin <= k && From(states, actions[k].task, k, c.tab) == Last(logs[begin])
  {
    FetchBegan(states, actions, actions[k].task, k);
    begin := SequencesAreEnds(states, actions, logs, c, limit, Since(states, actions[k].task, k));
  }

  lemma LandingFollows(states: seq<State>, actions: seq<Action>, k: nat)
    requires Observed(states, actions) && k < |actions| && FetchLands(states[k], actions[k])
    requires Snapshot(states[k + 1]) == Snapshot(states[k])
    ensures states[k + 1].data == IncrementalData(states[k].data, Snapshot(states[k]), actions[k].response)
  {
    assert Follows(states[k], actions[k], states[k + 1]);
  }

  /** A fetch that lands on rows without a gap leaves them without a gap if and only if it began at the sequence number
      that is still shown, or no rows are shown. */
  lemma LandingIsExact(states: seq<State>, actions: seq<Action>, logs: seq<Log>, c: Context, limit: nat, k: nat)
    requires Observed(states, actions) && GrowingAnswers(states, actions, logs, c, limit) && k < |actions|
    requires FetchLands(states[k], actions[k]) && Snapshot(states[k]) == c == Snapshot(states[k + 1])
    requires GapFree(states[k].data, c.tab, logs, k)
    ensures
      GapFree(states[k + 1].data, c.tab, logs, k + 1) <==>
      From(states, actions[k].task, k, c.tab) == SequenceOf(states[k].data, c.tab) || RowsOf(states[k].data, c.tab) == []
  {
    LandingFollows(states, actions, k);
    var m :| 0 <= m <= k && EndOf(logs[m], RowsOf(states[k].data, c.tab), SequenceOf(states[k].data, c.tab));
    var begin := LandingBegan(states, actions, logs, c, limit, k);
    var later := LandedFetch(states, actions, logs, c, limit, k);
    Lands(logs, k + 1, m, begin, later, states[k].data, states[k + 1].data, c.tab);
  }

  // ----- With overlap: whole runs -----

  /** The last full load of the context before state `k` lands in state `j`. */
  ghost predicate LastLoadLands(states: seq<State>, actions: seq<Action>, c: Context, j: nat, k: nat)
    requires k < |states| && |states| == |actions| + 1
  {
    && j < k && LoadLands(states[j], actions[j]) && Snapshot(states[j]) == c
    && forall i :: j < i < k ==> !(LoadLands(states[i], actions[i]) && Snapshot(states[i]) == c)
  }

  /** If it is a fetch of the context that lands, it began at the number shown, or lands onto no rows. */
  ghost predicate WellPlaced(states: seq<State>, actions: seq<Action>, c: Context, i: nat)
    requires i < |actions| && i < |states|
  {
    FetchLands(states[i], actions[i]) && Snapshot(states[i]) == c ==>
      From(states, actions[i].task, i, c.tab) == SequenceOf(states[i].data, c.tab) || RowsOf(states[i].data, c.tab) == []
  }

  /** What is shown as ready has been loaded. */
  lemma {:induction false} SomeLoadIsLast(states: seq<State>, actions: seq<Action>, c: Context, k: nat) returns (j: nat)
    requires Observed(states, actions) && k < |states| && states[k].ready && Snapshot(states[k]) == c
    ensures LastLoadLands(states, actions, c, j, k)
    decreases k
  {
    assert Follows(states[k - 1], actions[k - 1], states[k]);
    if LoadLands(states[k - 1], actions[k - 1]) {
      j := k - 1;
    } else {
      j := SomeLoadIsLast(states, actions, c, k - 1);
    }
  }

  lemma LandedFetchIsGone(s: State, a: Action, s': State, t: TaskId)
    requires Follows(s, a, s') && FetchLands(s, a) && Fetches(s', t)
    requires s'.tasks[t].context == Snapshot(s') == Snapshot(s)
    ensures !Fetches(s, t)
  {
    assert FetchFollows(s, a, s', t);
  }

  /** A fetch in flight after another has landed began at the number that is shown, unless a load came between. */
  lemma {:induction false} LaterFetchesAreAligned(
    states: seq<State>, actions: seq<Action>, c: Context, t: TaskId, i: nat, k: nat)
    requires Observed(states, actions) && i < k < |states| && FetchLands(states[i], actions[i]) && Snapshot(states[i]) == c
    requires forall l :: i < l < k ==> !(LoadLands(states[l], actions[l]) && Snapshot(states[l]) == c)
    requires Fetches(states[k], t) && states[k].tasks[t].context == c == Snapshot(states[k])
    ensures From(states, t, k, c.tab) == SequenceOf(states[k].data, c.tab)
    decreases k
  {
    assert Follows(states[k - 1], actions[k - 1], states[k]);
    if k - 1 == i {
      LandedFetchIsGone(states[i], actions[i], states[k], t);
    } else if Fetches(states[k - 1], t) {
      FetchGoesOn(states[k - 1], actions[k - 1], states[k], c, t);
      LaterFetchesAreAligned(states, actions, c, t, i, k - 1);
    }
  }

  /** The newest row that is shown was the last of the log at some time. */
  lemma {:induction false} RowsStartAtEnds(
    states: seq<State>, actions: seq<Action>, logs: seq<Log>, c: Context, limit: nat, k: nat)
    returns (m: nat)
    requires Observed(states, actions) && GrowingAnswers(states, actions, logs, c, limit)
    requires k < |states| && states[k].ready && Snapshot(states[k]) == c
    ensures m <= k && (RowsOf(states[k].data, c.tab) != [] ==> RowsOf(states[k].data, c.tab)[0] == Last(logs[m]))
    decreases k
  {
    var s, a := states[k - 1], actions[k - 1];
    assert Follows(s, a, states[k]);
    if LoadLands(s, a) {
      m := LandedLoad(states, actions, logs, c, limit, k - 1);
    } else {
      m := RowsStartAtEnds(states, actions, logs, c, limit, k - 1);
      if FetchLands(s, a) {
        var later := LandedFetch(states, actions, logs, c, limit, k - 1);
        var received := LastAbove(logs[later], From(states, a.task, k - 1, c.tab));
        m := if received == [] then m else later;
      }
    }
  }

  lemma LastAbove(log: Log, sequence: nat) returns (received: seq<nat>)
    requires LivePaging.Ascending(log)
    ensures received == LivePaging.Above(log, sequence)
    ensures
      var rows := LivePaging.Reversed(received);
      received != [] ==> rows[0] == Last(log)
  {
    var low, high := LivePaging.Split(log, sequence);
    received := high;
    if high != [] {
      LivePaging.ReversedAt(high, 0);
    }
  }

  lemma SameLast(log: Log, other: Log)
    requires LivePaging.Ascending(log) && LivePaging.Ascending(other) && (log <= other || other <= log) && Last(log) == Last(other)
    ensures log == other
  {
    if log != [] && other != [] {
      var k := Least(|log|, |other|) - 1;
      assert log[k] == other[k];
    }
  }

  /** What comes to the log later makes nothing gap-free. */
  lemma GapFreeEarlier(data: Data, tab: Tab, logs: seq<Log>, m: nat, k: nat)
    requires LivePaging.Growing(logs) && m <= k && k + 1 < |logs| && SequenceOf(data, tab) == Last(logs[m])
    ensures GapFree(data, tab, logs, k + 1) <==> GapFree(data, tab, logs, k)
  {
    if GapFree(data, tab, logs, k + 1) {
      var n :| 0 <= n <= k + 1 && EndOf(logs[n], RowsOf(data, tab), SequenceOf(data, tab));
      LogsGrow(logs, m, n);
      SameLast(logs[m], logs[n]);
    }
  }

  /** A fetch that began at the number shown fills no gap. */
  lemma AlignedFetchFillsNothing(logs: seq<Log>, k: nat, q: nat, begin: nat, later: nat, data: Data, data': Data, tab: Tab)
    requires LivePaging.Growing(logs) && k < |logs| && q <= k && begin <= k && later <= k
    requires RowsOf(data, tab) != [] ==> RowsOf(data, tab)[0] == Last(logs[q])
    requires SequenceOf(data, tab) == Last(logs[begin])
    requires
      var received := LivePaging.Above(logs[later], Last(logs[begin]));
      && RowsOf(data', tab) == LivePaging.Reversed(received) + RowsOf(data, tab)
      && SequenceOf(data', tab) == if received == [] then Last(logs[begin]) else Last(logs[later])
    requires GapFree(data', tab, logs, k)
    ensures GapFree(data, tab, logs, k)
  {
    var rows, received := RowsOf(data, tab), LivePaging.Above(logs[later], Last(logs[begin]));
    var end :| 0 <= end <= k && EndOf(logs[end], RowsOf(data', tab), SequenceOf(data', tab));
    if rows == [] {
      assert EndOf(logs[begin], rows, SequenceOf(data, tab));
    } else if received == [] {
      assert LivePaging.Reversed(received) + rows == rows;
    } else {
      LogsGrow(logs, q, later);
      LogsGrow(logs, begin, end);
      LogsGrow(logs, q, end);
      EndBelow(logs[q], logs[begin], logs[later], logs[end], rows);
      assert EndOf(logs[q], rows, SequenceOf(data, tab));
    }
  }

  lemma EndBelow(log: Log, begin: Log, later: Log, end: Log, rows: seq<nat>)
    requires LivePaging.Ascending(log) && LivePaging.Ascending(later) && (log <= later || later <= log)
    requires LivePaging.Ascending(begin) && LivePaging.Ascending(end) && (begin <= end || end <= begin)
    requires (log <= end || end <= log) && rows != [] && rows[0] == Last(log)
    requires
      var received := LivePaging.Above(later, Last(begin));
      received != [] && EndOf(end, LivePaging.Reversed(received) + rows, Last(later))
    ensures EndOf(log, rows, Last(begin))
  {
    var received := LivePaging.Above(later, Last(begin));
    RowsBelow(end, received, rows);
    MisplacedRow(log, begin, later, end, |end| - 1 - |received|);
    EndsWithin(log, end, rows, |end| - 1 - |received|);
  }

  lemma RowsBelow(end: Log, received: seq<nat>, rows: seq<nat>)
    requires received != [] && |end| >= |received| + |rows|
    requires
      var after := LivePaging.Reversed(received) + rows;
      forall k :: 0 <= k < |after| ==> after[k] == end[|end| - 1 - k]
    ensures end[|end| - |received|] == received[0]
    ensures forall k :: 0 <= k < |rows| ==> rows[k] == end[(|end| - 1 - |received|) - k]
  {
    var n, after := |received|, LivePaging.Reversed(received) + rows;
    LivePaging.ReversedAt(received, n - 1);
    assert after[n - 1] == received[0];
    forall k | 0 <= k < |rows|
      ensures rows[k] == end[(|end| - 1 - n) - k]
    {
      assert after[n + k] == rows[k];
    }
  }

  /** A log that ends with a row of another is that one up to the row. */
  lemma EndsAt(log: Log, end: Log, p: nat)
    requires LivePaging.Ascending(log) && LivePaging.Ascending(end) && (log <= end || end <= log)
    requires p < |end| && end[p] == Last(log)
    ensures |log| == p + 1 && forall k :: 0 <= k <= p ==> log[k] == end[k]
  {
    var k := Least(|log| - 1, p);
    assert log[k] == end[k];
  }

  lemma EndsWithin(log: Log, end: Log, rows: seq<nat>, p: nat)
    requires LivePaging.Ascending(log) && LivePaging.Ascending(end) && (log <= end || end <= log)
    requires p < |end| && |rows| <= p + 1 && end[p] == Last(log) && forall k :: 0 <= k < |rows| ==> rows[k] == end[p - k]
    ensures EndOf(log, rows, Last(log))
  {
    EndsAt(log, end, p);
  }

  /** A fetch lands on rows with a gap and began at the number shown: the gap stays. */
  lemma GapStays(states: seq<State>, actions: seq<Action>, logs: seq<Log>, c: Context, limit: nat, k: nat)
    requires Observed(states, actions) && GrowingAnswers(states, actions, logs, c, limit) && k < |actions|
    requires FetchLands(states[k], actions[k]) && Snapshot(states[k]) == c == Snapshot(states[k + 1]) && states[k].ready
    requires From(states, actions[k].task, k, c.tab) == SequenceOf(states[k].data, c.tab)
    requires !GapFree(states[k].data, c.tab, logs, k)
    ensures !GapFree(states[k + 1].data, c.tab, logs, k + 1)
  {
    LandingFollows(states, actions, k);
    var q := RowsStartAtEnds(states, actions, logs, c, limit, k);
    var begin := LandingBegan(states, actions, logs, c, limit, k);
    var later := LandedFetch(states, actions, logs, c, limit, k);
    GapFreeEarlier(states[k].data, c.tab, logs, begin, k);
    if GapFree(states[k + 1].data, c.tab, logs, k + 1) {
      AlignedFetchFillsNothing(logs, k + 1, q, begin, later, states[k].data, states[k + 1].data, c.tab);
    }
  }

  /** What one more step does to the rows, if those with a gap are met only by fetches that began at the number shown. */
  lemma StepOnGap(states: seq<State>, actions: seq<Action>, logs: seq<Log>, c: Context, limit: nat, k: nat)
    requires Observed(states, actions) && GrowingAnswers(states, actions, logs, c, limit) && k < |actions|
    requires states[k].ready && Snapshot(states[k]) == c == Snapshot(states[k + 1]) && !LoadLands(states[k], actions[k])
    requires
      FetchLands(states[k], actions[k]) && !GapFree(states[k].data, c.tab, logs, k) ==>
        From(states, actions[k].task, k, c.tab) == SequenceOf(states[k].data, c.tab)
    ensures
      GapFree(states[k + 1].data, c.tab, logs, k + 1) <==>
      GapFree(states[k].data, c.tab, logs, k) && WellPlaced(states, actions, c, k)
  {
    if FetchLands(states[k], actions[k]) {
      if GapFree(states[k].data, c.tab, logs, k) {
        LandingIsExact(states, actions, logs, c, limit, k);
      } else {
        GapStays(states, actions, logs, c, limit, k);
      }
    } else {
      assert Follows(states[k], actions[k], states[k + 1]);
      var m := SequencesAreEnds(states, actions, logs, c, limit, k);
      GapFreeEarlier(states[k].data, c.tab, logs, m, k);
    }
  }

  ghost predicate AllWellPlaced(states: seq<State>, actions: seq<Action>, c: Context, j: nat, k: nat)
    requires k <= |actions| && k <= |states|
  {
    forall i :: j < i < k ==> WellPlaced(states, actions, c, i)
  }

  lemma {:induction false} GapFreeSinceLoad(
    states: seq<State>, actions: seq<Action>, logs: seq<Log>, c: Context, limit: nat, j: nat, k: nat)
    requires Observed(states, actions) && GrowingAnswers(states, actions, logs, c, limit)
    requires k < |states| && states[k].ready && Snapshot(states[k]) == c && LastLoadLands(states, actions, c, j, k)
    ensures GapFree(states[k].data, c.tab, logs, k) <==> AllWellPlaced(states, actions, c, j, k)
    decreases k
  {
    if k == j + 1 {
      GapFreeAfterLoad(states, actions, logs, c, limit, j);
    } else {
      var i: nat := k - 1;
      StaysReady(states, actions, c, j, i);
      GapFreeSinceLoad(states, actions, logs, c, limit, j, i);
      GapFreeOneMore(states, actions, logs, c, limit, j, i);
    }
  }

  lemma GapFreeOneMore(
    states: seq<State>, actions: seq<Action>, logs: seq<Log>, c: Context, limit: nat, j: nat, k: nat)
    requires Observed(states, actions) && GrowingAnswers(states, actions, logs, c, limit) && k < |actions|
    requires states[k].ready && Snapshot(states[k]) == c == Snapshot(states[k + 1]) && !LoadLands(states[k], actions[k])
    requires LastLoadLands(states, actions, c, j, k)
    requires GapFree(states[k].data, c.tab, logs, k) <==> AllWellPlaced(states, actions, c, j, k)
    ensures GapFree(states[k + 1].data, c.tab, logs, k + 1) <==> AllWellPlaced(states, actions, c, j, k + 1)
  {
    GapsMeetAligned(states, actions, logs, c, j, k);
    StepOnGap(states, actions, logs, c, limit, k);
    OneMorePlaced(states, actions, c, j, k);
  }

  lemma OneMorePlaced(states: seq<State>, actions: seq<Action>, c: Context, j: nat, k: nat)
    requires j < k < |actions| && k < |states|
    ensures
      AllWellPlaced(states, actions, c, j, k + 1) <==>
      AllWellPlaced(states, actions, c, j, k) && WellPlaced(states, actions, c, k)
  {
  }

  lemma GapFreeAfterLoad(states: seq<State>, actions: seq<Action>, logs: seq<Log>, c: Context, limit: nat, j: nat)
    requires Observed(states, actions) && GrowingAnswers(states, actions, logs, c, limit) && j < |actions|
    requires LoadLands(states[j], actions[j]) && Snapshot(states[j]) == c == Snapshot(states[j + 1])
    ensures GapFree(states[j + 1].data, c.tab, logs, j + 1)
  {
    assert Follows(states[j], actions[j], states[j + 1]);
    var m := LandedLoad(states, actions, logs, c, limit, j);
  }

  lemma StaysReady(states: seq<State>, actions: seq<Action>, c: Context, j: nat, k: nat)
    requires Observed(states, actions) && k < |actions| && states[k + 1].ready && Snapshot(states[k + 1]) == c
    requires j < k && LastLoadLands(states, actions, c, j, k + 1)
    ensures states[k].ready && Snapshot(states[k]) == c && !LoadLands(states[k], actions[k])
    ensures LastLoadLands(states, actions, c, j, k)
  {
    assert Follows(states[k], actions[k], states[k + 1]);
  }

  lemma GapsMeetAligned(states: seq<State>, actions: seq<Action>, logs: seq<Log>, c: Context, j: nat, k: nat)
    requires Observed(states, actions) && k < |actions| && |logs| == |states| && LastLoadLands(states, actions, c, j, k)
    requires Snapshot(states[k]) == c
    requires GapFree(states[k].data, c.tab, logs, k) <==> AllWellPlaced(states, actions, c, j, k)
    ensures
      FetchLands(states[k], actions[k]) && !GapFree(states[k].data, c.tab, logs, k) ==>
      From(states, actions[k].task, k, c.tab) == SequenceOf(states[k].data, c.tab)
  {
    if FetchLands(states[k], actions[k]) && !GapFree(states[k].data, c.tab, logs, k) {
      var i :| j < i < k && !WellPlaced(states, actions, c, i);
      LaterFetchesAreAligned(states, actions, c, actions[k].task, i, k);
    }
  }

  /** Unless messages are filtered by acknowledgement: in every truthful run, the rows shown for a context have no gap if
      and only if every fetch that has landed since the last full load began at the sequence number that was shown when it
      landed, or landed onto no rows. */
  lemma NoGapIsExact(states: seq<State>, actions: seq<Action>, tables: seq<Table>, c: Context, limit: nat, j: nat, k: nat)
    requires IsTruthfulRun(states, actions, tables, c, limit) && GrowsAtEnd(c.tab, c.filters)
    requires k < |states| && states[k].ready && Snapshot(states[k]) == c && LastLoadLands(states, actions, c, j, k)
    ensures
      GapFree(states[k].data, c.tab, Views(tables, c), k) <==> AllWellPlaced(states, actions, c, j, k)
  {
    TruthfulRunGrows(states, actions, tables, c, limit);
    GapFreeSinceLoad(states, actions, Views(tables, c), c, limit, j, k);
  }

  /** So a gap stays until the next full load lands. */
  lemma GapsLast(
    states: seq<State>, actions: seq<Action>, tables: seq<Table>, c: Context, limit: nat, i: nat, k: nat)
    requires IsTruthfulRun(states, actions, tables, c, limit) && GrowsAtEnd(c.tab, c.filters) && i <= k < |states|
    requires states[i].ready && Snapshot(states[i]) == c && states[k].ready && Snapshot(states[k]) == c
    requires forall l :: i <= l < k ==> !(LoadLands(states[l], actions[l]) && Snapshot(states[l]) == c)
    requires !GapFree(states[i].data, c.tab, Views(tables, c), i)
    ensures !GapFree(states[k].data, c.tab, Views(tables, c), k)
  {
    RunsAreObserved(states, actions);
    var j := SomeLoadIsLast(states, actions, c, i);
    NoGapIsExact(states, actions, tables, c, limit, j, i);
    NoGapIsExact(states, actions, tables, c, limit, j, k);
  }
}
