/** Runs in which the rows shown are not the end of the log: when a load overlaps a fetch, and when messages are filtered
    by acknowledgement. */
module LiveRuns {
  import opened Wrappers
  import opened Poller
  import opened PollerInvariant
  import opened AdminViews
  import opened LiveRows
  import LivePaging

  // ----- Composing runs -----

  lemma JoinPaths(first: seq<State>, a: seq<Action>, second: seq<State>, b: seq<Action>)
    requires IsPath(first, a) && IsPath(second, b) && first[|first| - 1] == second[0]
    ensures IsPath(first + second[1..], a + b)
  {
    var states, actions := first + second[1..], a + b;
    forall k | 0 <= k < |actions|
      ensures Goes(states[k], actions[k], states[k + 1])
    {
      if k >= |a| {
        assert actions[k] == b[k - |a|] && states[k] == second[k - |a|] && states[k + 1] == second[k - |a| + 1];
      } else {
        assert Goes(first[k], a[k], first[k + 1]);
      }
    }
  }

  lemma PathIsRun(states: seq<State>, actions: seq<Action>)
    requires IsPath(states, actions) && states[0] == Initial()
    ensures IsRun(states, actions)
  {
    forall k | 0 <= k < |actions|
      ensures Enabled(states[k], actions[k]) && states[k + 1] == Step(states[k], actions[k])
    {
      assert Goes(states[k], actions[k], states[k + 1]);
    }
  }

  lemma {:induction false} SinceIs(states: seq<State>, t: TaskId, j: nat, k: nat)
    requires j <= k < |states| && t in states[j].tasks
    requires forall i :: j <= i <= k ==> t in states[i].tasks && states[i].tasks[t] == states[j].tasks[t]
    requires j > 0 ==> t !in states[j - 1].tasks || states[j - 1].tasks[t] != states[j].tasks[t]
    ensures Since(states, t, k) == j
    decreases k
  {
    if j < k {
      SinceIs(states, t, j, k - 1);
    }
  }

  /** A fetch of one page. */
  lemma OnePage(log: Log, sequence: nat, received: seq<nat>, newest: nat, logs: seq<Log>, m: nat, j: nat, k: nat, limit: nat)
    requires j <= m <= k < |logs| && logs[m] == log && LivePaging.Above(log, sequence) == received && |received| <= limit
    requires newest == LivePaging.NewestSequence(sequence, received)
    ensures FetchedFrom(Batch(received, newest), sequence, logs, j, k, limit)
  {
    var page := LivePaging.Serve(log, sequence, limit);
    assert page == LivePaging.LivePage(received, false);
    assert Behind(logs, [m]) == [log];
    assert LivePaging.Pages([log], sequence, limit) == [page];
    assert LivePaging.Replies([page]) == [LivePaging.Received(page)] by {
      assert [page][1..] == [];
    }
    assert [] + received == received;
    assert AreMoments([m], j, k);
  }

  lemma LoadIsTruthful(states: seq<State>, actions: seq<Action>, logs: seq<Log>, c: Context, limit: nat, k: nat)
    requires k < |actions| && k < |states| && k < |logs| && actions[k].Answer? && actions[k].task in states[k].tasks
    requires states[k].tasks[actions[k].task].Loading? && actions[k].response.Full?
    requires LoadedFrom(actions[k].response.items, logs, Since(states, actions[k].task, k), k, limit)
    ensures Truthful(states, actions, logs, c, limit, k)
  {
  }

  lemma FetchIsTruthful(states: seq<State>, actions: seq<Action>, logs: seq<Log>, c: Context, limit: nat, k: nat)
    requires k < |actions| && k < |states| && k < |logs| && actions[k].Answer? && actions[k].task in states[k].tasks
    requires states[k].tasks[actions[k].task].Fetching? && actions[k].response.Incremental?
    requires
      var t, r := actions[k].task, actions[k].response;
      && BatchOf(r, c.tab).Some?
      && FetchedFrom(BatchOf(r, c.tab).value, From(states, t, k, c.tab), logs, Since(states, t, k), k, limit)
    ensures Truthful(states, actions, logs, c, limit, k)
  {
  }

  lemma OthersAreTruthful(states: seq<State>, actions: seq<Action>, logs: seq<Log>, c: Context, limit: nat, k: nat)
    requires k < |actions| && k < |states| && k < |logs|
    requires
      actions[k].Answer? && actions[k].task in states[k].tasks ==>
      || (!actions[k].response.Full? && !actions[k].response.Incremental?)
      || (states[k].tasks[actions[k].task].Loading? && states[k].tasks[actions[k].task].context != c)
    ensures Truthful(states, actions, logs, c, limit, k)
  {
  }

  lemma {:induction false} AllMatch(marks: seq<Mark>)
    requires forall k :: 0 <= k < |marks| ==> marks[k].matches
    ensures |Matching(marks)| == |marks| && forall k :: 0 <= k < |marks| ==> Matching(marks)[k] == marks[k].sequence
  {
    if marks != [] {
      AllMatch(marks[..|marks| - 1]);
    }
  }

  // ----- A load overlaps a fetch -----

  function Events(n: nat): Table {
    Table(seq(n, k requires 0 <= k < n => EventRow(k + 1, None, 0, true)), [])
  }

  lemma EventsView(n: nat)
    ensures TableOk(Events(n)) && |View(Events(n), Activity, NO_FILTERS)| == n
    ensures forall k :: 0 <= k < n ==> View(Events(n), Activity, NO_FILTERS)[k] == k + 1
  {
    AllMatch(Marks(Events(n), Activity, NO_FILTERS));
  }

  const LISTED := Context(NO_FILTERS, 1, Some(7), Activity)

  const BOOT_LOAD := Loading(Boot(0), LISTED)

  /** The page once the projects are listed. */
  function Page(
    activePoll: Option<nat>, pollTimer: Option<TimerId>, ready: bool, data: Data, tasks: map<TaskId, Task>, nextId: nat): State
  {
    State(activePoll, NO_FILTERS, 1, 0, pollTimer, Some(7), ready, Activity, data,
          if pollTimer.Some? then map[pollTimer.value := 0] else map[], tasks, nextId)
  }

  const NO_DATA := Data([], 0, 0, [], [], Sequences(0, 0))

  function Shown(rows: seq<nat>, sequence: nat): Data {
    Data([LISTED], 0, 0, rows, [], Sequences(sequence, 0))
  }

  const FIRST_PART := [Answer(0, Projects([7])), ChangeVisibility, FireTimer(1)]
  const SECOND_PART := [Answer(2, Full(0, 0, [2, 1])), Answer(2, Failure), FireTimer(3)]
  const THIRD_PART := [Answer(0, Full(0, 0, [1])), Answer(4, Incremental(0, 0, Some(Batch([3], 3)), None))]

  /** The first load of the page waits; meanwhile the page becomes visible, and its poll waits for a load too. */
  lemma TwoLoadsWait() returns (states: seq<State>)
    ensures IsPath(states, FIRST_PART) && states[0] == Initial()
    ensures states[1] == Page(None, None, false, NO_DATA, map[0 := BOOT_LOAD], 1)
    ensures states[2] == Page(None, Some(1), false, NO_DATA, map[0 := BOOT_LOAD], 2)
    ensures states[3] == Page(Some(0), None, false, NO_DATA, map[0 := BOOT_LOAD, 2 := Loading(Caller.Poll(0), LISTED)], 3)
  {
    var s1 := Page(None, None, false, NO_DATA, map[0 := BOOT_LOAD], 1);
    var s2 := Page(None, Some(1), false, NO_DATA, map[0 := BOOT_LOAD], 2);
    var s3 := Page(Some(0), None, false, NO_DATA, map[0 := BOOT_LOAD, 2 := Loading(Caller.Poll(0), LISTED)], 3);
    assert Step(Initial(), FIRST_PART[0]) == s1;
    assert Step(s1, FIRST_PART[1]) == s2;
    assert s2.timers - {1} == map[];
    assert Step(s2, FIRST_PART[2]) == s3;
    states := [Initial(), s1, s2, s3];
  }

  lemma NewestOfTwo()
    ensures LivePaging.NewestSequence(0, [2, 1]) == 2 && LivePaging.NewestSequence(0, [1]) == 1
  {
    assert [2, 1][..1] == [2] && [2][..0] == [] && [1][..0] == [];
  }

  /** The poll's load lands, and the next poll begins to fetch after sequence number two. */
  lemma PollLoadsAndFetches(s: State) returns (states: seq<State>)
    requires s == Page(Some(0), None, false, NO_DATA, map[0 := BOOT_LOAD, 2 := Loading(Caller.Poll(0), LISTED)], 3)
    ensures IsPath(states, SECOND_PART) && states[0] == s
    ensures states[1] == Page(Some(0), None, true, Shown([2, 1], 2), map[0 := BOOT_LOAD, 2 := Settled(Caller.Poll(0))], 3)
    ensures states[2] == Page(None, Some(3), true, Shown([2, 1], 2), map[0 := BOOT_LOAD], 4)
    ensures
      states[3] == Page(Some(0), None, true, Shown([2, 1], 2), map[0 := BOOT_LOAD, 4 := Fetching(Caller.Poll(0), LISTED)], 5)
  {
    var s1 := Page(Some(0), None, true, Shown([2, 1], 2), map[0 := BOOT_LOAD, 2 := Settled(Caller.Poll(0))], 3);
    assert Goes(s, SECOND_PART[0], s1) by {
      NewestOfTwo();
    }
    var s2, s3 := PollGoesOn(s1);
    states := [s, s1, s2, s3];
  }

  lemma PollGoesOn(s: State) returns (s1: State, s2: State)
    requires s == Page(Some(0), None, true, Shown([2, 1], 2), map[0 := BOOT_LOAD, 2 := Settled(Caller.Poll(0))], 3)
    ensures Goes(s, SECOND_PART[1], s1) && Goes(s1, SECOND_PART[2], s2)
    ensures s1 == Page(None, Some(3), true, Shown([2, 1], 2), map[0 := BOOT_LOAD], 4)
    ensures s2 == Page(Some(0), None, true, Shown([2, 1], 2), map[0 := BOOT_LOAD, 4 := Fetching(Caller.Poll(0), LISTED)], 5)
  {
    s1 := Page(None, Some(3), true, Shown([2, 1], 2), map[0 := BOOT_LOAD], 4);
    s2 := Page(Some(0), None, true, Shown([2, 1], 2), map[0 := BOOT_LOAD, 4 := Fetching(Caller.Poll(0), LISTED)], 5);
    assert s.tasks - {2} == s1.tasks && s1.timers - {3} == map[];
  }

  /** The first load lands with an older page, and then the fetch. */
  lemma FirstLoadOverlaps(s: State) returns (states: seq<State>)
    requires s == Page(Some(0), None, true, Shown([2, 1], 2), map[0 := BOOT_LOAD, 4 := Fetching(Caller.Poll(0), LISTED)], 5)
    ensures IsPath(states, THIRD_PART) && states[0] == s
    ensures
      states[1] == Page(Some(0), None, true, Shown([1], 1), map[0 := Settled(Boot(0)), 4 := Fetching(Caller.Poll(0), LISTED)], 5)
    ensures states[2].ready && Snapshot(states[2]) == LISTED && states[2].data.activity == [3, 1]
  {
    var s1 := Page(Some(0), None, true, Shown([1], 1), map[0 := Settled(Boot(0)), 4 := Fetching(Caller.Poll(0), LISTED)], 5);
    assert Step(s, THIRD_PART[0]) == s1 by {
      NewestOfTwo();
    }
    var s2 := Step(s1, THIRD_PART[1]);
    assert [3][..0] == [] && LivePaging.Reversed([3]) == [3];
    states := [s, s1, s2];
  }

  const OVERLAP := FIRST_PART + SECOND_PART + THIRD_PART

  function OverlapTables(): (tables: seq<Table>)
    ensures |tables| == 9
  {
    seq(9, k requires 0 <= k < 9 => Events(if k < 3 then 1 else if k < 7 then 2 else 3))
  }

  /** What waits in the states of the run. */
  ghost predicate OverlapTasks(states: seq<State>) {
    && |states| == 9 && states[0].tasks == map[0 := Listing(Boot(0), Context(NO_FILTERS, 0, None, Activity))]
    && states[1].tasks == states[2].tasks == map[0 := BOOT_LOAD]
    && states[3].tasks == map[0 := BOOT_LOAD, 2 := Loading(Caller.Poll(0), LISTED)]
    && states[4].tasks == map[0 := BOOT_LOAD, 2 := Settled(Caller.Poll(0))]
    && states[5].tasks == map[0 := BOOT_LOAD]
    && states[6].tasks == map[0 := BOOT_LOAD, 4 := Fetching(Caller.Poll(0), LISTED)]
    && states[7].tasks == map[0 := Settled(Boot(0)), 4 := Fetching(Caller.Poll(0), LISTED)]
    && states[6].data == Shown([2, 1], 2)
  }

  lemma OverlappingRun() returns (states: seq<State>)
    ensures IsPath(states, OVERLAP) && states[0] == Initial() && OverlapTasks(states)
    ensures states[8].ready && Snapshot(states[8]) == LISTED && states[8].data.activity == [3, 1]
  {
    var first := TwoLoadsWait();
    var second := PollLoadsAndFetches(first[3]);
    var third := FirstLoadOverlaps(second[3]);
    JoinPaths(first, FIRST_PART, second, SECOND_PART);
    var most := first + second[1..];
    JoinPaths(most, FIRST_PART + SECOND_PART, third, THIRD_PART);
    states := most + third[1..];
    assert states[4] == second[1] && states[5] == second[2] && states[6] == second[3] && states[7] == third[1];
  }

  lemma OverlapHistory()
    ensures IsHistory(OverlapTables())
  {
    forall n: nat
      ensures TableOk(Events(n))
    {
      EventsView(n);
    }
  }

  lemma OverlapViews() returns (logs: seq<Log>)
    ensures logs == Views(OverlapTables(), LISTED)
    ensures AreOverlapViews(logs)
  {
    logs := Views(OverlapTables(), LISTED);
    EventsView(1);
    EventsView(2);
    EventsView(3);
  }

  ghost predicate AreOverlapViews(logs: seq<Log>) {
    |logs| == 9 && forall k :: 0 <= k < 9 ==> logs[k] == if k < 3 then [1] else if k < 7 then [1, 2] else [1, 2, 3]
  }

  lemma OverlapLoads(states: seq<State>, logs: seq<Log>)
    requires OverlapTasks(states) && AreOverlapViews(logs)
    ensures Since(states, 2, 3) <= 3 && Since(states, 0, 6) == 1
    ensures LoadedFrom([2, 1], logs, Since(states, 2, 3), 3, 50) && LoadedFrom([1], logs, 1, 6, 50)
  {
    SinceIs(states, 0, 1, 6);
    assert LivePaging.History(logs[3], 50) == [2, 1] by {
      assert [1, 2][..1] == [1] && [1][..0] == [] && [1, 2][0..] == [1, 2];
    }
    assert LivePaging.History(logs[1], 50) == [1] by {
      assert [1][..0] == [] && [1][0..] == [1];
    }
  }

  lemma OverlapFetches(states: seq<State>, logs: seq<Log>)
    requires OverlapTasks(states) && AreOverlapViews(logs)
    ensures Since(states, 4, 7) == 6 && From(states, 4, 7, Activity) == 2 && FetchedFrom(Batch([3], 3), 2, logs, 6, 7, 50)
  {
    SinceIs(states, 4, 6, 7);
    RowThreeIsNew();
    OnePage([1, 2, 3], 2, [3], 3, logs, 7, 6, 7, 50);
  }

  lemma RowThreeIsNew()
    ensures LivePaging.Above([1, 2, 3], 2) == [3] && LivePaging.NewestSequence(2, [3]) == 3
  {
    assert [1, 2, 3][..2] == [1, 2] && [1, 2][..1] == [1] && [1][..0] == [] && [3][..0] == [];
  }

  lemma OverlapIsTruthful(states: seq<State>, logs: seq<Log>, k: nat)
    requires k < 8 && OverlapTasks(states) && AreOverlapViews(logs)
    ensures Truthful(states, OVERLAP, logs, LISTED, 50, k)
  {
    if k == 3 || k == 6 {
      OverlapLoadsAreTruthful(states, logs);
    } else if k == 7 {
      OverlapFetchIsTruthful(states, logs);
    } else {
      OthersAreTruthful(states, OVERLAP, logs, LISTED, 50, k);
    }
  }

  lemma OverlapLoadsAreTruthful(states: seq<State>, logs: seq<Log>)
    requires OverlapTasks(states) && AreOverlapViews(logs)
    ensures Truthful(states, OVERLAP, logs, LISTED, 50, 3) && Truthful(states, OVERLAP, logs, LISTED, 50, 6)
  {
    OverlapLoads(states, logs);
    assert OVERLAP[3] == SECOND_PART[0] && OVERLAP[6] == THIRD_PART[0];
    LoadIsTruthful(states, OVERLAP, logs, LISTED, 50, 3);
    LoadIsTruthful(states, OVERLAP, logs, LISTED, 50, 6);
  }

  lemma OverlapFetchIsTruthful(states: seq<State>, logs: seq<Log>)
    requires OverlapTasks(states) && AreOverlapViews(logs)
    ensures Truthful(states, OVERLAP, logs, LISTED, 50, 7)
  {
    OverlapFetches(states, logs);
    assert OVERLAP[7] == THIRD_PART[1];
    FetchIsTruthful(states, OVERLAP, logs, LISTED, 50, 7);
  }

  /** In this truthful run a load overlaps a fetch, and afterwards a row is missing between two that are shown. */
  lemma OverlapLeavesGap() returns (states: seq<State>, actions: seq<Action>, tables: seq<Table>)
    ensures IsTruthfulRun(states, actions, tables, LISTED, 50) && |actions| == 8
    ensures states[8].ready && Snapshot(states[8]) == LISTED && View(tables[8], Activity, NO_FILTERS) == [1, 2, 3]
    ensures states[8].data.activity == [3, 1] && !GapFree(states[8].data, Activity, Views(tables, LISTED), 8)
  {
    states := OverlappingRun();
    actions, tables := OVERLAP, OverlapTables();
    PathIsRun(states, actions);
    OverlapHistory();
    var logs := OverlapViews();
    forall k | 0 <= k < 8
      ensures Truthful(states, actions, logs, LISTED, 50, k)
    {
      OverlapIsTruthful(states, logs, k);
    }
    NoEnd(logs, states[8].data);
  }

  lemma NoEnd(logs: seq<Log>, data: Data)
    requires AreOverlapViews(logs) && data.activity == [3, 1]
    ensures !GapFree(data, Activity, logs, 8)
  {
    forall m | 0 <= m <= 8
      ensures !EndOf(logs[m], [3, 1], SequenceOf(data, Activity))
    {
      assert [3, 1][0] == 3 && [3, 1][1] == 1;
    }
  }
}
