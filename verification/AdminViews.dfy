/** What the server shows of a project's tables under the filters of the administration page, while the tables grow and
    messages are acknowledged. */
module AdminViews {
  import opened Wrappers
  import opened Poller
  import LivePaging

  type Log = LivePaging.Log

  datatype EventRow = EventRow(sequence: nat, actor: Option<nat>, eventType: nat, success: bool)

  datatype MessageRow = MessageRow(sequence: nat, sender: nat, recipient: nat, acknowledged: bool)

  datatype Table = Table(events: seq<EventRow>, messages: seq<MessageRow>)

  // ----- The queries -----

  predicate EventMatches(e: EventRow, f: Filters) {
    && (f.agent.Some? ==> e.actor == f.agent)
    && (f.eventType.Some? ==> e.eventType == f.eventType.value)
    && (f.success.Some? ==> e.success == f.success.value)
  }

  predicate MessageMatches(m: MessageRow, f: Filters) {
    && (f.agent.Some? ==> m.sender == f.agent.value || m.recipient == f.agent.value)
    && (f.acknowledged.Some? ==> m.acknowledged == f.acknowledged.value)
  }

  /** A row's sequence number, and whether the filters let it through. */
  datatype Mark = Mark(sequence: nat, matches: bool)

  function Marks(t: Table, tab: Tab, f: Filters): (marks: seq<Mark>)
    ensures tab == Activity ==> |marks| == |t.events|
    ensures tab != Activity ==> |marks| == |t.messages|
  {
    if tab == Activity
    then seq(|t.events|, k requires 0 <= k < |t.events| => Mark(t.events[k].sequence, EventMatches(t.events[k], f)))
    else seq(|t.messages|, k requires 0 <= k < |t.messages| => Mark(t.messages[k].sequence, MessageMatches(t.messages[k], f)))
  }

  function Matching(marks: seq<Mark>): Log {
    if marks == [] then []
    else
      var last := marks[|marks| - 1];
      Matching(marks[..|marks| - 1]) + if last.matches then [last.sequence] else []
  }

  /** The rows behind a tab, as their sequence numbers. */
  function View(t: Table, tab: Tab, f: Filters): Log {
    Matching(Marks(t, tab, f))
  }

  function Views(tables: seq<Table>, c: Context): (logs: seq<Log>)
    ensures |logs| == |tables|
    ensures forall k :: 0 <= k < |logs| ==> logs[k] == View(tables[k], c.tab, c.filters)
  {
    seq(|tables|, k requires 0 <= k < |tables| => View(tables[k], c.tab, c.filters))
  }

  // ----- What the filters let through, written out -----

  /** The event is the agent's, of the type and of the outcome, as far as these are chosen. */
  predicate EventShown(t: Table, f: Filters, k: nat) {
    && k < |t.events|
    && (f.agent.None? || t.events[k].actor == f.agent)
    && (f.eventType.None? || f.eventType == Some(t.events[k].eventType))
    && (f.success.None? || f.success == Some(t.events[k].success))
  }

  /** The message is from the agent or to it, and acknowledged or not, as far as these are chosen. */
  predicate MessageShown(t: Table, f: Filters, k: nat) {
    && k < |t.messages|
    && (f.agent.None? || f.agent == Some(t.messages[k].sender) || f.agent == Some(t.messages[k].recipient))
    && (f.acknowledged.None? || f.acknowledged == Some(t.messages[k].acknowledged))
  }

  lemma MatchingOneMore(marks: seq<Mark>, positions: seq<nat>)
    requires marks != []
    requires
      var before := Matching(marks[..|marks| - 1]);
      |before| == |positions| && forall x :: 0 <= x < |positions| ==> positions[x] < |marks| - 1 && before[x] == marks[positions[x]].sequence
    ensures
      var last := |marks| - 1;
      var more := if marks[last].matches then positions + [last] else positions;
      && |Matching(marks)| == |more|
      && forall x :: 0 <= x < |more| ==> more[x] < |marks| && Matching(marks)[x] == marks[more[x]].sequence
  {
  }

  lemma {:induction false} MatchingLists(marks: seq<Mark>, matches: nat -> bool) returns (positions: seq<nat>)
    requires forall k: nat {:trigger matches(k)} :: k < |marks| ==> (matches(k) <==> marks[k].matches)
    ensures Lists(positions, |marks|, matches) && |Matching(marks)| == |positions|
    ensures forall x :: 0 <= x < |positions| ==> positions[x] < |marks| && Matching(marks)[x] == marks[positions[x]].sequence
  {
    if marks == [] {
      positions := [];
    } else {
      var last := |marks| - 1;
      var before := MatchingLists(marks[..last], matches);
      MatchingOneMore(marks, before);
      ListsOneMore(before, last, matches);
      positions := if matches(last) then before + [last] else before;
    }
  }

  /** The activity lists exactly the events that the filters let through, in their order. */
  lemma ActivityIsExact(t: Table, f: Filters) returns (positions: seq<nat>)
    ensures Lists(positions, |t.events|, (k: nat) => EventShown(t, f, k))
    ensures |View(t, Activity, f)| == |positions|
    ensures forall x :: 0 <= x < |positions| ==>
      positions[x] < |t.events| && View(t, Activity, f)[x] == t.events[positions[x]].sequence
  {
    positions := MatchingLists(Marks(t, Activity, f), (k: nat) => EventShown(t, f, k));
  }

  /** And the messages those that they let through. */
  lemma MessagesAreExact(t: Table, f: Filters) returns (positions: seq<nat>)
    ensures Lists(positions, |t.messages|, (k: nat) => MessageShown(t, f, k))
    ensures |View(t, Messages, f)| == |positions|
    ensures forall x :: 0 <= x < |positions| ==>
      positions[x] < |t.messages| && View(t, Messages, f)[x] == t.messages[positions[x]].sequence
  {
    positions := MatchingLists(Marks(t, Messages, f), (k: nat) => MessageShown(t, f, k));
  }

  // ----- How the tables change -----

  ghost predicate InOrder(marks: seq<Mark>) {
    && (forall i, j :: 0 <= i < j < |marks| ==> marks[i].sequence < marks[j].sequence)
    && (forall i :: 0 <= i < |marks| ==> marks[i].sequence > 0)
  }

  ghost predicate TableOk(t: Table) {
    InOrder(Marks(t, Activity, NO_FILTERS)) && InOrder(Marks(t, Messages, NO_FILTERS))
  }

  /** Rows come at the end, and an unacknowledged message may be acknowledged. */
  ghost predicate Extends(t: Table, t': Table) {
    && t.events <= t'.events
    && |t.messages| <= |t'.messages|
    && forall k :: 0 <= k < |t.messages| ==>
         || t'.messages[k] == t.messages[k]
         || t'.messages[k] == t.messages[k].(acknowledged := true)
  }

  ghost predicate IsHistory(tables: seq<Table>) {
    && (forall k :: 0 <= k < |tables| ==> TableOk(tables[k]))
    && (forall j, k :: 0 <= j <= k < |tables| ==> Extends(tables[j], tables[k]))
  }

  // ----- Which views grow -----

  /** No filter lets a row through that it has held back before, or holds back one that it has let through. */
  predicate GrowsAtEnd(tab: Tab, f: Filters) {
    tab == Activity || f.acknowledged.None?
  }

  lemma {:induction false} MatchingAscends(marks: seq<Mark>, bound: nat)
    requires InOrder(marks) && forall k :: 0 <= k < |marks| ==> marks[k].sequence < bound
    ensures LivePaging.Ascending(Matching(marks)) && forall k :: 0 <= k < |Matching(marks)| ==> Matching(marks)[k] < bound
  {
    if marks != [] {
      var n := |marks| - 1;
      MatchingAscends(marks[..n], marks[n].sequence);
      AscendingAppend(Matching(marks[..n]), marks[n].sequence);
    }
  }

  lemma AscendingAppend(log: Log, next: nat)
    requires LivePaging.Ascending(log) && next > 0 && forall k :: 0 <= k < |log| ==> log[k] < next
    ensures LivePaging.Ascending(log + [next])
  {
  }

  lemma {:induction false} MatchingOfJoined(marks: seq<Mark>, more: seq<Mark>)
    ensures Matching(marks + more) == Matching(marks) + Matching(more)
  {
    if more == [] {
      assert marks + more == marks;
    } else {
      MatchingOfJoined(marks, more[..|more| - 1]);
      assert (marks + more)[..|marks + more| - 1] == marks + more[..|more| - 1];
    }
  }

  lemma ViewAscends(t: Table, tab: Tab, f: Filters)
    requires TableOk(t)
    ensures LivePaging.Ascending(View(t, tab, f))
  {
    var all := Marks(t, if tab == Activity then Activity else Messages, NO_FILTERS);
    var marks := Marks(t, tab, f);
    assert forall k :: 0 <= k < |marks| ==> marks[k].sequence == all[k].sequence;
    MatchingAscends(marks, if marks == [] then 0 else marks[|marks| - 1].sequence + 1);
  }

  lemma ViewGrows(t: Table, t': Table, tab: Tab, f: Filters)
    requires Extends(t, t') && GrowsAtEnd(tab, f)
    ensures View(t, tab, f) <= View(t', tab, f)
  {
    var marks, marks' := Marks(t, tab, f), Marks(t', tab, f);
    assert marks' == marks + marks'[|marks|..];
    MatchingOfJoined(marks, marks'[|marks|..]);
  }

  /** Behind the activity under any filters, and behind the messages unless they are filtered by acknowledgement, the rows
      only grow at the end. */
  lemma ViewsGrow(tables: seq<Table>, c: Context)
    requires IsHistory(tables) && GrowsAtEnd(c.tab, c.filters)
    ensures LivePaging.Growing(Views(tables, c))
  {
    var logs := Views(tables, c);
    forall k | 0 <= k < |logs|
      ensures LivePaging.Ascending(logs[k])
    {
      ViewAscends(tables[k], c.tab, c.filters);
    }
    forall j, k | 0 <= j <= k < |logs|
      ensures logs[j] <= logs[k]
    {
      ViewGrows(tables[j], tables[k], c.tab, c.filters);
    }
  }
}
