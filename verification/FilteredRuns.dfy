/** Which contexts show the end of their log in every truthful run without overlap: all but the messages filtered by
    acknowledgement. */
module FilteredRuns {
  import opened Wrappers
  import opened Poller
  import opened PollerInvariant
  import opened AdminViews
  import opened LiveRows
  import opened LiveRuns
  import LivePaging

  // ----- The tables -----

  function Sender(f: Filters): nat {
    if f.agent.Some? then f.agent.value else 0
  }

  /** A message that the filters let through exactly if its acknowledgement is the chosen one. */
  function Message(sequence: nat, acknowledged: bool, f: Filters): MessageRow {
    MessageRow(sequence, Sender(f), 0, acknowledged)
  }

  function Chosen(f: Filters): bool
    requires f.acknowledged.Some?
  {
    f.acknowledged.value
  }

  /** Message 2 is unacknowledged, and the other two have the chosen acknowledgement. */
  function Before(f: Filters): Table
    requires f.acknowledged.Some?
  {
    Table([], [Message(1, Chosen(f), f), Message(2, false, f), Message(3, Chosen(f), f)])
  }

  /** Message 2 is acknowledged, and message 4 has come. */
  function Later(f: Filters): Table
    requires f.acknowledged.Some?
  {
    Table([], [Message(1, Chosen(f), f), Message(2, true, f), Message(3, Chosen(f), f), Message(4, Chosen(f), f)])
  }

  function ViewBefore(f: Filters): Log
    requires f.acknowledged.Some?
  {
    if Chosen(f) then [1, 3] else [1, 2, 3]
  }

  function ViewLater(f: Filters): Log
    requires f.acknowledged.Some?
  {
    if Chosen(f) then [1, 2, 3, 4] else [1, 3, 4]
  }

  lemma MatchingOfFirst(marks: seq<Mark>, n: nat)
    requires 0 < n <= |marks|
    ensures Matching(marks[..n]) == Matching(marks[..n - 1]) + if marks[n - 1].matches then [marks[n - 1].sequence] else []
  {
    assert marks[..n][..n - 1] == marks[..n - 1];
  }

  lemma MatchingOfThree(a: Mark, b: Mark, c: Mark)
    requires a.matches && c.matches
    ensures Matching([a, b, c]) == if b.matches then [a.sequence, b.sequence, c.sequence] else [a.sequence, c.sequence]
  {
    var marks := [a, b, c];
    MatchingOfFirst(marks, 1);
    MatchingOfFirst(marks, 2);
    MatchingOfFirst(marks, 3);
    assert marks[..0] == [] && marks[..3] == marks;
  }

  lemma ViewsOfMessages(f: Filters)
    requires f.acknowledged.Some?
    ensures View(Before(f), Messages, f) == ViewBefore(f) && View(Later(f), Messages, f) == ViewLater(f)
  {
    var before, later := Marks(Before(f), Messages, f), Marks(Later(f), Messages, f);
    assert before == [Mark(1, true), Mark(2, !Chosen(f)), Mark(3, true)];
    MatchingOfThree(before[0], before[1], before[2]);
    assert later == [Mark(1, true), Mark(2, Chosen(f)), Mark(3, true)] + [Mark(4, true)];
    MatchingOfThree(later[0], later[1], later[2]);
    MatchingOfFirst(later, 4);
    assert later[..4] == later && later[..3] == [later[0], later[1], later[2]];
  }

  function FilteredTables(f: Filters): (tables: seq<Table>)
    requires f.acknowledged.Some?
    ensures |tables| == 9
  {
    seq(9, k requires 0 <= k < 9 => if k < 7 then Before(f) else Later(f))
  }

  lemma FilteredHistory(f: Filters)
    requires f.acknowledged.Some?
    ensures IsHistory(FilteredTables(f))
  {
    assert TableOk(Before(f)) && TableOk(Later(f));
    assert Extends(Before(f), Before(f)) && Extends(Before(f), Later(f)) && Extends(Later(f), Later(f));
  }

  // ----- The run -----

  const LISTED_MESSAGES := Context(NO_FILTERS, 2, Some(7), Messages)

  /** The messages under the filters. */
  function Filtered(f: Filters): Context {
    Context(f, 3, Some(7), Messages)
  }

  const FIRST_LOAD := Loading(Boot(0), LISTED)

  const SECOND_END := Settled(ContextLoad(1, LISTED_MESSAGES))

  function ShownMessages(c: Context, rows: seq<nat>, sequence: nat): Data {
    Data([c], 0, 0, [], rows, Sequences(0, sequence))
  }

  /** The page once the filters are chosen. */
  function FilteredPage(
    f: Filters, activePoll: Option<nat>, pollTimer: Option<TimerId>, ready: bool, data: Data, tasks: map<TaskId, Task>,
    nextId: nat): State
  {
    State(activePoll, f, 3, 2, pollTimer, Some(7), ready, Messages, data,
          if pollTimer.Some? then map[pollTimer.value := 2] else map[], tasks, nextId)
  }

  /** What the first load of the filtered messages lists. */
  function LoadedMessages(f: Filters): seq<nat>
    requires f.acknowledged.Some?
  {
    if Chosen(f) then [3, 1] else [3, 2, 1]
  }

  function ChoosingFilters(f: Filters): seq<Action> {
    [Answer(0, Projects([7])), SelectTab(Messages), Answer(1, Full(0, 0, [3, 2, 1])), SelectFilters(f)]
  }

  function LoadingFiltered(f: Filters): seq<Action>
    requires f.acknowledged.Some?
  {
    [Answer(2, Full(0, 0, LoadedMessages(f))), Answer(2, Failure), FireTimer(3),
     Answer(4, Incremental(0, 0, Some(Batch([], 0)), Some(Batch([4], 4))))]
  }

  lemma NewestIsThree(f: Filters)
    requires f.acknowledged.Some?
    ensures LivePaging.NewestSequence(0, [3, 2, 1]) == 3 && LivePaging.NewestSequence(0, LoadedMessages(f)) == 3
  {
    assert [3, 2, 1][..2] == [3, 2] && [3, 2][..1] == [3] && [3, 1][..1] == [3] && [3][..0] == [];
  }

  /** The page lists the project, shows its messages, and is told the filters. */
  lemma FiltersAreChosen(f: Filters) returns (states: seq<State>)
    requires f.acknowledged.Some?
    ensures IsPath(states, ChoosingFilters(f)) && states[0] == Initial()
    ensures
      states[4] == FilteredPage(f, None, None, false, Data([LISTED_MESSAGES], 0, 0, [], [], Sequences(0, 0)),
                                map[0 := FIRST_LOAD, 1 := SECOND_END, 2 := Loading(ContextLoad(2, Filtered(f)), Filtered(f))], 3)
    ensures states[1].generation == 1 && states[2].generation == 2 && states[3].generation == 2 && states[0].generation == 0
    ensures states[2].tasks == map[0 := FIRST_LOAD, 1 := Loading(ContextLoad(1, LISTED_MESSAGES), LISTED_MESSAGES)]
  {
    var s1 := Page(None, None, false, NO_DATA, map[0 := FIRST_LOAD], 1);
    var s2 := State(None, NO_FILTERS, 2, 1, None, Some(7), false, Messages, NO_DATA, map[],
                    map[0 := FIRST_LOAD, 1 := Loading(ContextLoad(1, LISTED_MESSAGES), LISTED_MESSAGES)], 2);
    assert Step(Initial(), Answer(0, Projects([7]))) == s1;
    assert Step(s1, SelectTab(Messages)) == s2;
    var s3, s4 := MessagesAreShown(f, s2);
    states := [Initial(), s1, s2, s3, s4];
  }

  lemma MessagesAreShown(f: Filters, s: State) returns (s1: State, s2: State)
    requires f.acknowledged.Some?
    requires
      s == State(None, NO_FILTERS, 2, 1, None, Some(7), false, Messages, NO_DATA, map[],
                 map[0 := FIRST_LOAD, 1 := Loading(ContextLoad(1, LISTED_MESSAGES), LISTED_MESSAGES)], 2)
    ensures Goes(s, Answer(1, Full(0, 0, [3, 2, 1])), s1) && Goes(s1, SelectFilters(f), s2) && s1.generation == 2
    ensures
      s2 == FilteredPage(f, None, None, false, Data([LISTED_MESSAGES], 0, 0, [], [], Sequences(0, 0)),
                         map[0 := FIRST_LOAD, 1 := SECOND_END, 2 := Loading(ContextLoad(2, Filtered(f)), Filtered(f))], 3)
  {
    s1 := State(None, NO_FILTERS, 2, 1, None, Some(7), true, Messages, ShownMessages(LISTED_MESSAGES, [3, 2, 1], 3), map[],
                map[0 := FIRST_LOAD, 1 := SECOND_END], 2);
    assert Goes(s, Answer(1, Full(0, 0, [3, 2, 1])), s1) by {
      NewestIsThree(f);
    }
    s2 := Step(s1, SelectFilters(f));
  }

  /** The filtered messages are loaded, and the next poll fetches message 4. */
  lemma FilteredAreFetched(f: Filters, s: State) returns (states: seq<State>)
    requires f.acknowledged.Some?
    requires
      s == FilteredPage(f, None, None, false, Data([LISTED_MESSAGES], 0, 0, [], [], Sequences(0, 0)),
                        map[0 := FIRST_LOAD, 1 := SECOND_END, 2 := Loading(ContextLoad(2, Filtered(f)), Filtered(f))], 3)
    ensures IsPath(states, LoadingFiltered(f)) && states[0] == s
    ensures 2 in states[1].tasks && states[1].tasks[2].Settled? && 4 !in states[2].tasks
    ensures 4 in states[3].tasks && states[3].tasks[4] == Fetching(Caller.Poll(2), Filtered(f))
    ensures states[3].data == ShownMessages(Filtered(f), LoadedMessages(f), 3)
    ensures states[4].ready && Snapshot(states[4]) == Filtered(f) && states[4].data.messages == [4] + LoadedMessages(f)
  {
    var data := ShownMessages(Filtered(f), LoadedMessages(f), 3);
    var s1 := FilteredPage(f, None, None, true, data,
                           map[0 := FIRST_LOAD, 1 := SECOND_END, 2 := Settled(ContextLoad(2, Filtered(f)))], 3);
    assert Goes(s, LoadingFiltered(f)[0], s1) by {
      NewestIsThree(f);
    }
    var s2, s3 := PollFetches(f, s1);
    var s4 := Step(s3, LoadingFiltered(f)[3]);
    assert [4][..0] == [] && LivePaging.Reversed([4]) == [4];
    states := [s, s1, s2, s3, s4];
  }

  lemma PollFetches(f: Filters, s: State) returns (s1: State, s2: State)
    requires f.acknowledged.Some?
    requires
      s == FilteredPage(f, None, None, true, ShownMessages(Filtered(f), LoadedMessages(f), 3),
                        map[0 := FIRST_LOAD, 1 := SECOND_END, 2 := Settled(ContextLoad(2, Filtered(f)))], 3)
    ensures Goes(s, Answer(2, Failure), s1) && Goes(s1, FireTimer(3), s2) && 4 !in s1.tasks
    ensures
      s2 == FilteredPage(f, Some(2), None, true, ShownMessages(Filtered(f), LoadedMessages(f), 3),
                         map[0 := FIRST_LOAD, 1 := SECOND_END, 4 := Fetching(Caller.Poll(2), Filtered(f))], 5)
  {
    var data := ShownMessages(Filtered(f), LoadedMessages(f), 3);
    s1 := FilteredPage(f, None, Some(3), true, data, map[0 := FIRST_LOAD, 1 := SECOND_END], 4);
    s2 := FilteredPage(f, Some(2), None, true, data,
                       map[0 := FIRST_LOAD, 1 := SECOND_END, 4 := Fetching(Caller.Poll(2), Filtered(f))], 5);
    assert s.tasks - {2} == s1.tasks && s1.timers - {3} == map[];
  }

  function FilteredActions(f: Filters): seq<Action>
    requires f.acknowledged.Some?
  {
    ChoosingFilters(f) + LoadingFiltered(f)
  }

  /** What matters of the run: what waits when something lands, and which context it meets. */
  ghost predicate FilteredTasks(f: Filters, states: seq<State>)
    requires f.acknowledged.Some?
  {
    && |states| == 9
    && states[0].generation < 3 && states[1].generation < 3 && states[2].generation < 3 && states[3].generation < 3
    && states[2].tasks == map[0 := FIRST_LOAD, 1 := Loading(ContextLoad(1, LISTED_MESSAGES), LISTED_MESSAGES)]
    && states[4].tasks == map[0 := FIRST_LOAD, 1 := SECOND_END, 2 := Loading(ContextLoad(2, Filtered(f)), Filtered(f))]
    && 2 in states[5].tasks && states[5].tasks[2].Settled? && 4 !in states[6].tasks
    && 4 in states[7].tasks && states[7].tasks[4] == Fetching(Caller.Poll(2), Filtered(f))
    && states[7].data == ShownMessages(Filtered(f), LoadedMessages(f), 3)
    && states[8].ready && Snapshot(states[8]) == Filtered(f) && states[8].data.messages == [4] + LoadedMessages(f)
  }

  lemma FilteredRun(f: Filters) returns (states: seq<State>)
    requires f.acknowledged.Some?
    ensures IsRun(states, FilteredActions(f)) && FilteredTasks(f, states)
  {
    var first := FiltersAreChosen(f);
    var second := FilteredAreFetched(f, first[4]);
    JoinPaths(first, ChoosingFilters(f), second, LoadingFiltered(f));
    states := first + second[1..];
    PathIsRun(states, FilteredActions(f));
    assert states[5] == second[1] && states[6] == second[2] && states[7] == second[3] && states[8] == second[4];
  }

  ghost predicate AreFilteredViews(f: Filters, logs: seq<Log>)
    requires f.acknowledged.Some?
  {
    |logs| == 9 && forall k :: 0 <= k < 9 ==> logs[k] == if k < 7 then ViewBefore(f) else ViewLater(f)
  }

  lemma FilteredViews(f: Filters)
    requires f.acknowledged.Some?
    ensures AreFilteredViews(f, Views(FilteredTables(f), Filtered(f)))
    ensures View(FilteredTables(f)[8], Messages, f) == ViewLater(f)
  {
    ViewsOfMessages(f);
  }

  lemma FilteredLoads(f: Filters, states: seq<State>, logs: seq<Log>)
    requires f.acknowledged.Some? && FilteredTasks(f, states) && AreFilteredViews(f, logs)
    ensures LoadedFrom(LoadedMessages(f), logs, Since(states, 2, 4), 4, 50)
  {
    assert LivePaging.History(logs[4], 50) == LoadedMessages(f) by {
      assert [1, 2, 3][..2] == [1, 2] && [1, 2][..1] == [1] && [1][..0] == [] && [1, 3][..1] == [1];
      assert logs[4][0..] == logs[4];
    }
  }

  lemma FilteredFetches(f: Filters, states: seq<State>, logs: seq<Log>)
    requires f.acknowledged.Some? && FilteredTasks(f, states) && AreFilteredViews(f, logs)
    ensures Since(states, 4, 7) == 7 && From(states, 4, 7, Messages) == 3 && FetchedFrom(Batch([4], 4), 3, logs, 7, 7, 50)
  {
    OnlyFourIsNew(f);
    OnePage(ViewLater(f), 3, [4], 4, logs, 7, 7, 7, 50);
  }

  lemma OnlyFourIsNew(f: Filters)
    requires f.acknowledged.Some?
    ensures LivePaging.Above(ViewLater(f), 3) == [4] && LivePaging.NewestSequence(3, [4]) == 4
  {
    var low := if Chosen(f) then [1, 2, 3] else [1, 3];
    assert ViewLater(f) == low + [4];
    OnlyLastIsAbove(low);
  }

  lemma OnlyLastIsAbove(low: seq<nat>)
    requires forall k :: 0 <= k < |low| ==> low[k] <= 3
    ensures LivePaging.Above(low + [4], 3) == [4] && LivePaging.NewestSequence(3, [4]) == 4
  {
    LivePaging.AboveOfParts(low + [4], low, [4], 3);
    assert [4][..0] == [];
  }

  lemma FilteredIsTruthful(f: Filters, states: seq<State>, logs: seq<Log>, k: nat)
    requires f.acknowledged.Some? && k < 8 && FilteredTasks(f, states) && AreFilteredViews(f, logs)
    ensures Truthful(states, FilteredActions(f), logs, Filtered(f), 50, k)
  {
    var actions := FilteredActions(f);
    if k == 4 {
      FilteredLoads(f, states, logs);
      assert actions[4] == LoadingFiltered(f)[0];
      LoadIsTruthful(states, actions, logs, Filtered(f), 50, k);
    } else if k == 7 {
      FilteredFetches(f, states, logs);
      assert actions[7] == LoadingFiltered(f)[3];
      FetchIsTruthful(states, actions, logs, Filtered(f), 50, k);
    } else {
      OthersAreTruthful(states, actions, logs, Filtered(f), 50, k);
    }
  }

  lemma FilteredAnswers(f: Filters, states: seq<State>, logs: seq<Log>)
    requires f.acknowledged.Some? && FilteredTasks(f, states) && AreFilteredViews(f, logs)
    ensures Answers(states, FilteredActions(f), logs, Filtered(f), 50)
  {
    forall k | 0 <= k < 8
      ensures Truthful(states, FilteredActions(f), logs, Filtered(f), 50, k)
    {
      FilteredIsTruthful(f, states, logs, k);
    }
  }

  lemma FilteredNeverOverlaps(f: Filters, states: seq<State>)
    requires f.acknowledged.Some? && FilteredTasks(f, states)
    ensures NoOverlap(states, FilteredActions(f), Filtered(f), 8)
  {
    var actions := FilteredActions(f);
    forall j | 0 <= j < 8
      ensures !Overlaps(states[j], actions[j], Filtered(f))
    {
      if j < 4 {
        assert Snapshot(states[j]) != Filtered(f);
      } else if j > 4 {
        assert actions[j].Answer? ==> !actions[j].response.Full?;
      }
    }
  }

  lemma FilteredIsNotTheEnd(f: Filters, states: seq<State>, logs: seq<Log>)
    requires f.acknowledged.Some? && FilteredTasks(f, states) && AreFilteredViews(f, logs)
    ensures !GapFree(states[8].data, Messages, logs, 8)
  {
    var rows := [4] + LoadedMessages(f);
    forall m | 0 <= m <= 8
      ensures !EndOf(logs[m], rows, SequenceOf(states[8].data, Messages))
    {
      assert rows[0] == 4 && rows[1] == 3 && rows[2] == if Chosen(f) then 1 else 2;
    }
  }

  /** Messages filtered by acknowledgement, whatever else is chosen: in this run no load overlaps a fetch, and yet a message
      is missing between two that are shown, or one is shown that no longer belongs there. */
  lemma FilteredMessagesGoWrong(f: Filters) returns (states: seq<State>, actions: seq<Action>, tables: seq<Table>)
    requires f.acknowledged.Some?
    ensures IsTruthfulRun(states, actions, tables, Filtered(f), 50) && |states| == 9
    ensures NoOverlap(states, actions, Filtered(f), 8) && states[8].ready && Snapshot(states[8]) == Filtered(f)
    ensures View(tables[8], Messages, f) == if Chosen(f) then [1, 2, 3, 4] else [1, 3, 4]
    ensures states[8].data.messages == if Chosen(f) then [4, 3, 1] else [4, 3, 2, 1]
    ensures !GapFree(states[8].data, Messages, Views(tables, Filtered(f)), 8)
  {
    states := FilteredRun(f);
    actions, tables := FilteredActions(f), FilteredTables(f);
    FilteredHistory(f);
    FilteredViews(f);
    FilteredAnswers(f, states, Views(tables, Filtered(f)));
    FilteredNeverOverlaps(f, states);
    FilteredIsNotTheEnd(f, states, Views(tables, Filtered(f)));
    FilteredShown(f);
  }

  lemma FilteredShown(f: Filters)
    requires f.acknowledged.Some?
    ensures [4] + LoadedMessages(f) == if Chosen(f) then [4, 3, 1] else [4, 3, 2, 1]
  {
  }

  // ----- The exact contexts -----

  /** Whatever the run, as long as no load overlaps a fetch, the rows shown for such a context are the end of its log. */
  ghost predicate AlwaysGapFree(tab: Tab, f: Filters) {
    forall states: seq<State>, actions: seq<Action>, tables: seq<Table>, c: Context, limit: nat, k: nat ::
      && c.tab == tab && c.filters == f && IsTruthfulRun(states, actions, tables, c, limit)
      && k < |states| && NoOverlap(states, actions, c, k) && states[k].ready && Snapshot(states[k]) == c ==>
      GapFree(states[k].data, tab, Views(tables, c), k)
  }

  /** That is so if and only if messages are not filtered by acknowledgement. */
  lemma FiltersAreExact(tab: Tab, f: Filters)
    requires tab != Agents
    ensures AlwaysGapFree(tab, f) <==> GrowsAtEnd(tab, f)
  {
    if GrowsAtEnd(tab, f) {
      forall states: seq<State>, actions: seq<Action>, tables: seq<Table>, c: Context, limit: nat, k: nat |
        && c.tab == tab && c.filters == f && IsTruthfulRun(states, actions, tables, c, limit)
        && k < |states| && NoOverlap(states, actions, c, k) && states[k].ready && Snapshot(states[k]) == c
        ensures GapFree(states[k].data, tab, Views(tables, c), k)
      {
        RowsShownHaveNoGap(states, actions, tables, c, limit, k);
      }
    } else {
      var states, actions, tables := FilteredMessagesGoWrong(f);
      assert Filtered(f).tab == tab;
    }
  }
}
