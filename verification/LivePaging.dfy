/** Incremental pages of an append-only log, and the browser's loop that fetches all that is new. A log is the list of
    the sequence numbers that a request's filters let through. */
module LivePaging {
  import opened Wrappers
  import Paging

  type Log = seq<nat>

  /** Sequence numbers start at one. */
  ghost predicate Ascending(log: Log) {
    (forall i, j :: 0 <= i < j < |log| ==> log[i] < log[j]) && forall i :: 0 <= i < |log| ==> log[i] > 0
  }

  /** The log only grows, and only at higher sequence numbers. */
  ghost predicate Growing(logs: seq<Log>) {
    && (forall i :: 0 <= i < |logs| ==> Ascending(logs[i]))
    && (forall i, j :: 0 <= i <= j < |logs| ==> logs[i] <= logs[j])
  }

  // ----- The server's pages -----

  datatype LivePage = LivePage(items: seq<nat>, hasMore: bool)

  function LiveSequencePage(items: seq<nat>, limit: nat): LivePage {
    LivePage(items[..Least(|items|, limit)], |items| > limit)
  }

  /** The rows after a sequence number, in ascending order. */
  function Above(log: Log, after: nat): seq<nat> {
    if log == [] then []
    else Above(log[..|log| - 1], after) + if log[|log| - 1] > after then [log[|log| - 1]] else []
  }

  /** The query asks for one row more than the page holds. */
  function Serve(log: Log, after: nat, limit: nat): LivePage {
    var rows := Above(log, after);
    LiveSequencePage(rows[..Least(|rows|, limit + 1)], limit)
  }

  // ----- The fetching loop -----

  function NewestSequence(current: nat, rows: seq<nat>): nat {
    if rows == [] then current
    else
      var newest := NewestSequence(current, rows[..|rows| - 1]);
      if rows[|rows| - 1] > newest then rows[|rows| - 1] else newest
  }

  datatype Reply = Lost | Outdated | Received(page: LivePage)

  datatype Fetched = Fetched(newest: nat, received: seq<nat>) | Abandoned | RequestFailed | InvalidProgress | Unanswered

  function Fetch(replies: seq<Reply>, after: nat, received: seq<nat>): Fetched
    decreases |replies|
  {
    if replies == [] then Unanswered
    else
      match replies[0]
      case Lost => RequestFailed
      case Outdated => Abandoned
      case Received(page) =>
        var newest := NewestSequence(after, page.items);
        if !page.hasMore then Fetched(newest, received + page.items)
        else if newest == after then InvalidProgress
        else Fetch(replies[1..], newest, received + page.items)
  }

  method ReduceNewest(current: nat, rows: seq<nat>) returns (newest: nat)
    ensures newest == NewestSequence(current, rows)
  {
    newest := current;
    for k := 0 to |rows|
      invariant newest == NewestSequence(current, rows[..k])
    {
      assert rows[..k + 1][..k] == rows[..k];
      if rows[k] > newest {
        newest := rows[k];
      }
    }
    assert rows[..|rows|] == rows;
  }

  /** The client's loop; it waits when the replies run out. */
  method FetchIncremental(replies: seq<Reply>, sequence: nat) returns (result: Fetched)
    ensures result == Fetch(replies, sequence, [])
  {
    var after, newest, hasMore, received := sequence, sequence, true, [];
    var k := 0;
    while hasMore
      invariant k <= |replies| && newest == after
      invariant hasMore ==> Fetch(replies, sequence, []) == Fetch(replies[k..], after, received)
      invariant !hasMore ==> Fetch(replies, sequence, []) == Fetched(newest, received)
      decreases |replies| - k + if hasMore then 1 else 0
    {
      if k == |replies| {
        return Unanswered;
      }
      var reply := replies[k];
      assert replies[k..][1..] == replies[k + 1..];
      if reply.Lost? {
        return RequestFailed;
      }
      if reply.Outdated? {
        return Abandoned;
      }
      received := received + reply.page.items;
      newest := ReduceNewest(newest, reply.page.items);
      hasMore := reply.page.hasMore;
      if hasMore && newest == after {
        return InvalidProgress;
      }
      after := newest;
      k := k + 1;
    }
    return Fetched(newest, received);
  }

  // ----- Rows above a sequence number -----

  lemma {:induction false} AboveOfJoined(log: Log, more: Log, after: nat)
    ensures Above(log + more, after) == Above(log, after) + Above(more, after)
  {
    if more == [] {
      assert log + more == log;
    } else {
      AboveOfJoined(log, more[..|more| - 1], after);
      assert (log + more)[..|log + more| - 1] == log + more[..|more| - 1];
    }
  }

  lemma {:induction false} AboveNone(log: Log, after: nat)
    requires forall k :: 0 <= k < |log| ==> log[k] <= after
    ensures Above(log, after) == []
  {
    if log != [] {
      AboveNone(log[..|log| - 1], after);
    }
  }

  lemma {:induction false} AboveAll(log: Log, after: nat)
    requires forall k :: 0 <= k < |log| ==> log[k] > after
    ensures Above(log, after) == log
  {
    if log != [] {
      AboveAll(log[..|log| - 1], after);
    }
  }

  lemma AboveOfParts(log: Log, low: Log, high: Log, after: nat)
    requires log == low + high
    requires (forall k :: 0 <= k < |low| ==> low[k] <= after) && (forall k :: 0 <= k < |high| ==> high[k] > after)
    ensures Above(log, after) == high
  {
    AboveOfJoined(low, high, after);
    AboveNone(low, after);
    AboveAll(high, after);
  }

  /** An ascending log splits at every sequence number. */
  lemma Split(log: Log, after: nat) returns (low: Log, high: Log)
    requires Ascending(log)
    ensures log == low + high && Above(log, after) == high
    ensures (forall k :: 0 <= k < |low| ==> low[k] <= after) && (forall k :: 0 <= k < |high| ==> high[k] > after)
  {
    var n := 0;
    while n < |log| && log[n] <= after
      invariant n <= |log| && forall k :: 0 <= k < n ==> log[k] <= after
    {
      n := n + 1;
    }
    low, high := log[..n], log[n..];
    assert forall k :: n < k < |log| ==> log[n] < log[k];
    AboveOfParts(log, low, high, after);
  }

  /** The newest of ascending rows above a sequence number is the last of them. */
  lemma {:induction false} NewestIsLast(after: nat, rows: seq<nat>)
    requires Ascending(rows) && forall k :: 0 <= k < |rows| ==> rows[k] > after
    ensures NewestSequence(after, rows) == if rows == [] then after else rows[|rows| - 1]
  {
    if rows != [] {
      NewestIsLast(after, rows[..|rows| - 1]);
    }
  }

  /** After the first rows of what is new come the others. */
  lemma AboveContinues(log: Log, after: nat, first: seq<nat>, rest: seq<nat>)
    requires Ascending(log) && Above(log, after) == first + rest
    ensures Above(log, NewestSequence(after, first)) == rest
  {
    var low, high := Split(log, after);
    Associate(low, first, rest);
    PartsAscend(low, first, rest, after);
    NewestIsLast(after, first);
    AboveOfParts(log, low + first, rest, NewestSequence(after, first));
  }

  lemma PartsAscend(low: seq<nat>, first: seq<nat>, rest: seq<nat>, after: nat)
    requires Ascending(low + (first + rest))
    requires forall k :: 0 <= k < |low| ==> low[k] <= after
    requires forall k :: 0 <= k < |first + rest| ==> (first + rest)[k] > after
    ensures Ascending(first) && forall k :: 0 <= k < |first| ==> first[k] > after
    ensures
      var newest := if first == [] then after else first[|first| - 1];
      && (forall k :: 0 <= k < |low + first| ==> (low + first)[k] <= newest)
      && (forall k :: 0 <= k < |rest| ==> rest[k] > newest)
  {
    var all := low + (first + rest);
    assert forall k :: 0 <= k < |first| ==> first[k] == (first + rest)[k] == all[|low| + k];
    assert forall k :: 0 <= k < |rest| ==> rest[k] == (first + rest)[|first| + k] == all[|low| + |first| + k];
  }

  /** What is new in a log is the beginning of what is new when it has grown. */
  lemma AboveGrows(log: Log, later: Log, after: nat) returns (more: seq<nat>)
    requires log <= later
    ensures Above(later, after) == Above(log, after) + more
  {
    more := Above(later[|log|..], after);
    assert later == log + later[|log|..];
    AboveOfJoined(log, later[|log|..], after);
  }

  // ----- One fetch -----

  /** The pages that the client gets, where `logs[k]` stands behind request k. */
  function Pages(logs: seq<Log>, after: nat, limit: nat): seq<LivePage>
    decreases |logs|
  {
    if logs == [] then []
    else
      var page := Serve(logs[0], after, limit);
      if !page.hasMore then [page] else [page] + Pages(logs[1..], NewestSequence(after, page.items), limit)
  }

  function Replies(pages: seq<LivePage>): seq<Reply> {
    if pages == [] then [] else [Received(pages[0])] + Replies(pages[1..])
  }

  predicate Ended(pages: seq<LivePage>) {
    pages != [] && !pages[|pages| - 1].hasMore
  }

  lemma ServeIsPrefix(log: Log, after: nat, limit: nat) returns (rest: seq<nat>)
    ensures
      var page := Serve(log, after, limit);
      && Above(log, after) == page.items + rest && |page.items| <= limit
      && (page.hasMore <==> rest != []) && (page.hasMore ==> |page.items| == limit)
  {
    var rows := Above(log, after);
    rest := rows[Least(|rows|, limit)..];
  }

  lemma {:induction false} PagesAreFew(logs: seq<Log>, after: nat, limit: nat)
    ensures |Pages(logs, after, limit)| <= |logs|
    decreases |logs|
  {
    if logs != [] {
      var page := Serve(logs[0], after, limit);
      if page.hasMore {
        PagesAreFew(logs[1..], NewestSequence(after, page.items), limit);
      }
    }
  }

  /** A fetch from a log that grows between its requests returns exactly the rows above the cursor that the last request
      found, ascending and once each, with the newest of them; it never raises its progress error. */
  lemma {:induction false} FetchIsExact(logs: seq<Log>, after: nat, limit: nat, received: seq<nat>)
    requires Growing(logs) && limit > 0
    ensures |Pages(logs, after, limit)| <= |logs|
    ensures
      var pages := Pages(logs, after, limit);
      Fetch(Replies(pages), after, received) ==
      if Ended(pages) then
        var new' := Above(logs[|pages| - 1], after);
        Fetched(NewestSequence(after, new'), received + new')
      else Unanswered
    decreases |logs|
  {
    PagesAreFew(logs, after, limit);
    if logs != [] {
      var page, pages := Serve(logs[0], after, limit), Pages(logs, after, limit);
      var rest0 := ServeIsPrefix(logs[0], after, limit);
      var newest := NewestSequence(after, page.items);
      if page.hasMore {
        FirstOfMany(logs[0], after, limit);
        var later, laterPages := logs[1..], Pages(logs[1..], newest, limit);
        assert pages[1..] == laterPages;
        assert Replies(pages)[1..] == Replies(laterPages);
        assert Growing(later) by {
          assert forall i :: 0 <= i < |later| ==> later[i] == logs[i + 1];
        }
        FetchIsExact(later, newest, limit, received + page.items);
        if Ended(pages) {
          assert pages[|pages| - 1] == laterPages[|laterPages| - 1];
          var last := logs[|pages| - 1];
          assert last == later[|laterPages| - 1];
          LaterRows(logs[0], last, after, limit);
          Associate(received, page.items, Above(last, newest));
        } else if laterPages != [] {
          assert pages[|pages| - 1] == laterPages[|laterPages| - 1];
        }
      } else {
        assert Above(logs[0], after) == page.items;
      }
    }
  }

  lemma FirstOfMany(log: Log, after: nat, limit: nat)
    requires Ascending(log) && limit > 0 && Serve(log, after, limit).hasMore
    ensures NewestSequence(after, Serve(log, after, limit).items) > after
  {
    var rest := ServeIsPrefix(log, after, limit);
    var low, high := Split(log, after);
    var items := Serve(log, after, limit).items;
    assert forall k :: 0 <= k < |items| ==> items[k] == high[k] == log[|low| + k];
    NewestIsLast(after, items);
  }

  /** What a first page and the rest of a later log hold together. */
  lemma LaterRows(log: Log, last: Log, after: nat, limit: nat)
    requires Ascending(last) && log <= last
    ensures
      var items := Serve(log, after, limit).items;
      var newest := NewestSequence(after, items);
      && Above(last, after) == items + Above(last, newest)
      && NewestSequence(after, Above(last, after)) == NewestSequence(newest, Above(last, newest))
  {
    var items := Serve(log, after, limit).items;
    var rest := ServeIsPrefix(log, after, limit);
    var more := AboveGrows(log, last, after);
    Associate(items, rest, more);
    AboveContinues(last, after, items, rest + more);
    NewestOfJoined(after, items, rest + more);
  }

  lemma {:induction false} NewestOfJoined(after: nat, first: seq<nat>, second: seq<nat>)
    ensures NewestSequence(after, first + second) == NewestSequence(NewestSequence(after, first), second)
  {
    if second == [] {
      assert first + second == first;
    } else {
      NewestOfJoined(after, first, second[..|second| - 1]);
      assert (first + second)[..|first + second| - 1] == first + second[..|second| - 1];
    }
  }

  // ----- When the loop ends, and with what -----

  /** The rows of the first n replies. */
  function Gathered(replies: seq<Reply>, n: nat): seq<nat>
    requires n <= |replies|
  {
    if n == 0 then [] else Gathered(replies, n - 1) + if replies[n - 1].Received? then replies[n - 1].page.items else []
  }

  /** The first n replies lead on: each says that there is more, and has a row newer than all before. */
  predicate Progressing(replies: seq<Reply>, after: nat, n: nat) {
    && n <= |replies|
    && forall k :: 0 <= k < n ==>
         && replies[k].Received? && replies[k].page.hasMore
         && NewestSequence(after, Gathered(replies, k + 1)) > NewestSequence(after, Gathered(replies, k))
  }

  lemma NewestOfReply(replies: seq<Reply>, after: nat, n: nat)
    requires n < |replies| && replies[n].Received?
    ensures
      var before, now := NewestSequence(after, Gathered(replies, n)), NewestSequence(after, Gathered(replies, n + 1));
      now == NewestSequence(before, replies[n].page.items) && now >= before
  {
    NewestOfJoined(after, Gathered(replies, n), replies[n].page.items);
    NewestIsMaximum(NewestSequence(after, Gathered(replies, n)), replies[n].page.items);
  }

  lemma {:induction false} LoopGoesOn(replies: seq<Reply>, after: nat, n: nat)
    requires Progressing(replies, after, n)
    ensures
      Fetch(replies, after, []) == Fetch(replies[n..], NewestSequence(after, Gathered(replies, n)), Gathered(replies, n))
  {
    if n == 0 {
      assert replies[0..] == replies;
    } else {
      LoopGoesOn(replies, after, n - 1);
      NewestOfReply(replies, after, n - 1);
      OneReplyMore(replies, n - 1, NewestSequence(after, Gathered(replies, n - 1)), Gathered(replies, n - 1));
    }
  }

  lemma OneReplyMore(replies: seq<Reply>, n: nat, newest: nat, gathered: seq<nat>)
    requires n < |replies| && replies[n].Received? && replies[n].page.hasMore
    requires NewestSequence(newest, replies[n].page.items) > newest
    ensures
      var items := replies[n].page.items;
      Fetch(replies[n..], newest, gathered) == Fetch(replies[n + 1..], NewestSequence(newest, items), gathered + items)
  {
    assert replies[n..][1..] == replies[n + 1..];
  }

  /** After replies that lead on, the next reply decides: an error ends the loop, a page that is no longer wanted
      abandons it, a last page completes it with all rows and the newest of them, and a page that does not lead on lacks
      progress. */
  lemma FetchEndsExactly(replies: seq<Reply>, after: nat, n: nat)
    requires Progressing(replies, after, n)
    ensures
      var result := Fetch(replies, after, []);
      if n == |replies| then result == Unanswered
      else if replies[n].Lost? then result == RequestFailed
      else if replies[n].Outdated? then result == Abandoned
      else if !replies[n].page.hasMore then
        result == Fetched(NewestSequence(after, Gathered(replies, n + 1)), Gathered(replies, n + 1))
      else !Progressing(replies, after, n + 1) ==> result == InvalidProgress
  {
    LoopGoesOn(replies, after, n);
    if n < |replies| && replies[n].Received? {
      NewestOfReply(replies, after, n);
    }
  }

  // ----- A log that does not grow -----

  function Constant(log: Log, n: nat): seq<Log> {
    seq(n, _ => log)
  }

  /** On a log that does not grow a fetch ends, after the ceiling of n/limit requests for n new rows. */
  lemma {:induction false} FetchOfConstantLogEnds(log: Log, after: nat, limit: nat, n: nat)
    requires Ascending(log) && limit > 0 && n >= Paging.PageCount(|Above(log, after)|, limit)
    ensures Ended(Pages(Constant(log, n), after, limit))
    ensures |Pages(Constant(log, n), after, limit)| == Paging.PageCount(|Above(log, after)|, limit)
    decreases n
  {
    var page := Serve(log, after, limit);
    var rest := ServeIsPrefix(log, after, limit);
    if page.hasMore {
      var newest := NewestSequence(after, page.items);
      AboveContinues(log, after, page.items, rest);
      assert Constant(log, n)[1..] == Constant(log, n - 1);
      FetchOfConstantLogEnds(log, newest, limit, n - 1);
      var pages, later := Pages(Constant(log, n), after, limit), Pages(Constant(log, n - 1), newest, limit);
      assert pages == [page] + later;
      assert pages[|pages| - 1] == later[|later| - 1];
    }
  }

  // ----- Polls -----

  /** A poll that commits nothing, or one whose fetch of this tab ends with `logs` behind its requests. */
  datatype Poll = Missed | Landed(logs: seq<Log>)

  datatype Progress = Progress(sequence: nat, committed: seq<nat>)

  function Commit(p: Progress, poll: Poll, limit: nat): Progress {
    match poll
    case Missed => p
    case Landed(logs) =>
      match Fetch(Replies(Pages(logs, p.sequence, limit)), p.sequence, [])
      case Fetched(newest, received) => Progress(newest, p.committed + received)
      case _ => p
  }

  function CommitAll(p: Progress, polls: seq<Poll>, limit: nat): Progress
    decreases |polls|
  {
    if polls == [] then p else CommitAll(Commit(p, polls[0], limit), polls[1..], limit)
  }

  function AllLogs(polls: seq<Poll>): seq<Log> {
    if polls == [] then [] else (if polls[0].Landed? then polls[0].logs else []) + AllLogs(polls[1..])
  }

  predicate Lands(p: Progress, poll: Poll, limit: nat) {
    poll.Landed? && Ended(Pages(poll.logs, p.sequence, limit))
  }

  /** The log behind the last request of a poll that commits; the log of before if it does not. */
  function NextSeen(log: Log, p: Progress, poll: Poll, limit: nat): Log {
    if !Lands(p, poll, limit) then log
    else
      var n := |Pages(poll.logs, p.sequence, limit)|;
      if n <= |poll.logs| then poll.logs[n - 1] else log
  }

  function Seen(log: Log, p: Progress, polls: seq<Poll>, limit: nat): Log
    decreases |polls|
  {
    if polls == [] then log
    else Seen(NextSeen(log, p, polls[0], limit), Commit(p, polls[0], limit), polls[1..], limit)
  }

  lemma GrowingFrom(logs: seq<Log>, n: nat, more: seq<Log>)
    requires Growing(logs + more) && n < |logs|
    ensures Growing([logs[n]] + more)
  {
    var all, part := logs + more, [logs[n]] + more;
    forall i, j | 0 <= i <= j < |part|
      ensures Ascending(part[i]) && part[i] <= part[j]
    {
      var a, b := if i == 0 then n else |logs| + i - 1, if j == 0 then n else |logs| + j - 1;
      assert part[i] == all[a] && part[j] == all[b];
    }
  }

  lemma GrowingTail(log: Log, logs: seq<Log>, more: seq<Log>)
    requires Growing([log] + (logs + more))
    ensures Growing(logs) && Growing([log] + logs + more) && forall i :: 0 <= i < |logs| ==> log <= logs[i]
  {
    var all := [log] + (logs + more);
    assert all == [log] + logs + more;
    forall i, j | 0 <= i <= j < |logs|
      ensures Ascending(logs[i]) && log <= logs[i] && logs[i] <= logs[j]
    {
      assert all[i + 1] == logs[i] && all[j + 1] == logs[j] && all[0] == log;
    }
  }

  /** The poll has committed what the log gained above its sequence number. */
  ghost predicate Commits(log: Log, p: Progress, q: Progress) {
    && Above(log, q.sequence) == []
    && q.sequence == NewestSequence(p.sequence, Above(log, p.sequence))
    && q.committed == p.committed + Above(log, p.sequence)
  }

  lemma LandedPoll(log: Log, p: Progress, logs: seq<Log>, more: seq<Log>, limit: nat)
    requires Growing([log] + (logs + more)) && limit > 0 && Ended(Pages(logs, p.sequence, limit))
    ensures
      var n := |Pages(logs, p.sequence, limit)|;
      && 0 < n <= |logs| && Growing([logs[n - 1]] + more) && log <= logs[n - 1]
      && Commits(logs[n - 1], p, Commit(p, Landed(logs), limit))
  {
    GrowingTail(log, logs, more);
    FetchIsExact(logs, p.sequence, limit, []);
    var n := |Pages(logs, p.sequence, limit)|;
    GrowingFrom([log] + logs, n, more);
    OnePollLands(logs[n - 1], p, Commit(p, Landed(logs), limit));
  }

  lemma MissedPoll(log: Log, p: Progress, logs: seq<Log>, more: seq<Log>, limit: nat)
    requires Growing([log] + (logs + more)) && limit > 0 && !Ended(Pages(logs, p.sequence, limit))
    ensures Growing([log] + more) && Commit(p, Landed(logs), limit) == p
  {
    GrowingTail(log, logs, more);
    FetchIsExact(logs, p.sequence, limit, []);
    GrowingFrom([log] + logs, 0, more);
  }

  lemma OnePoll(log: Log, p: Progress, poll: Poll, more: seq<Log>, limit: nat)
    requires Growing([log] + ((if poll.Landed? then poll.logs else []) + more)) && limit > 0 && Above(log, p.sequence) == []
    ensures
      var next := NextSeen(log, p, poll, limit);
      Growing([next] + more) && log <= next && Commits(next, p, Commit(p, poll, limit))
  {
    if poll.Missed? {
      assert [] + more == more;
    } else if Lands(p, poll, limit) {
      LandedPoll(log, p, poll.logs, more, limit);
    } else {
      MissedPoll(log, p, poll.logs, more, limit);
    }
  }

  /** Polls that miss change nothing, and the batches of the others, one after the other, are exactly what the log gained
      above the sequence number of the beginning. */
  lemma {:induction false} PollsCommitTheLog(log: Log, p: Progress, polls: seq<Poll>, limit: nat)
    requires Growing([log] + AllLogs(polls)) && limit > 0 && Above(log, p.sequence) == []
    ensures
      var seen, q := Seen(log, p, polls, limit), CommitAll(p, polls, limit);
      && Ascending(seen) && log <= seen && Above(seen, q.sequence) == []
      && q.committed == p.committed + Above(seen, p.sequence)
    decreases |polls|
  {
    if polls == [] {
      assert log == ([log] + AllLogs(polls))[0];
      assert p.committed + [] == p.committed;
    } else {
      var q, next := Commit(p, polls[0], limit), NextSeen(log, p, polls[0], limit);
      OnePoll(log, p, polls[0], AllLogs(polls[1..]), limit);
      PollsCommitTheLog(next, q, polls[1..], limit);
      var seen := Seen(next, q, polls[1..], limit);
      LaterPolls(next, seen, p, q);
      Associate(p.committed, Above(next, p.sequence), Above(seen, q.sequence));
    }
  }

  lemma OnePollLands(next: Log, p: Progress, q: Progress)
    requires Ascending(next)
    requires q == Progress(NewestSequence(p.sequence, Above(next, p.sequence)), p.committed + ([] + Above(next, p.sequence)))
    ensures Above(next, q.sequence) == []
    ensures q.committed == p.committed + Above(next, p.sequence)
  {
    assert [] + Above(next, p.sequence) == Above(next, p.sequence) == Above(next, p.sequence) + [];
    AboveContinues(next, p.sequence, Above(next, p.sequence), []);
  }

  lemma LaterPolls(next: Log, seen: Log, p: Progress, q: Progress)
    requires next <= seen && q.sequence == NewestSequence(p.sequence, Above(next, p.sequence)) && Ascending(seen)
    ensures Above(seen, p.sequence) == Above(next, p.sequence) + Above(seen, q.sequence)
  {
    var more := AboveGrows(next, seen, p.sequence);
    AboveContinues(seen, p.sequence, Above(next, p.sequence), more);
  }

  // ----- The first load -----

  function Reversed(rows: seq<nat>): (r: seq<nat>)
    ensures |r| == |rows|
  {
    if rows == [] then [] else [rows[|rows| - 1]] + Reversed(rows[..|rows| - 1])
  }

  /** The newest rows, and those that a full load leaves out. */
  function Shown(log: Log, limit: nat): Log {
    log[|log| - Least(|log|, limit)..]
  }

  function LeftOut(log: Log, limit: nat): Log {
    log[..|log| - Least(|log|, limit)]
  }

  /** The page of a full load lists the newest rows, newest first. */
  function History(log: Log, limit: nat): seq<nat> {
    Reversed(Shown(log, limit))
  }

  lemma {:induction false} ReversedAt(rows: seq<nat>, k: nat)
    requires k < |rows|
    ensures Reversed(rows)[k] == rows[|rows| - 1 - k]
  {
    if k > 0 {
      ReversedAt(rows[..|rows| - 1], k - 1);
    }
  }

  /** It has as many of the newest rows as it may. */
  lemma HistoryIsNewestFirst(log: Log, limit: nat, k: nat)
    ensures |History(log, limit)| == if |log| <= limit then |log| else limit
    ensures k < |History(log, limit)| ==> History(log, limit)[k] == log[|log| - 1 - k]
  {
    if k < |History(log, limit)| {
      ReversedAt(Shown(log, limit), k);
    }
  }

  lemma {:induction false} NewestIsMaximum(current: nat, rows: seq<nat>)
    ensures NewestSequence(current, rows) >= current && forall k :: 0 <= k < |rows| ==> NewestSequence(current, rows) >= rows[k]
    ensures NewestSequence(current, rows) == current || NewestSequence(current, rows) in rows
  {
    if rows != [] {
      NewestIsMaximum(current, rows[..|rows| - 1]);
    }
  }

  /** A full load continues at the last sequence number of the log. */
  lemma LoadContinuesAtTheEnd(log: Log, limit: nat)
    requires Ascending(log) && limit > 0
    ensures NewestSequence(0, History(log, limit)) == if log == [] then 0 else log[|log| - 1]
  {
    var shown := Shown(log, limit);
    NewestIsMaximum(0, Reversed(shown));
    if log != [] {
      ReversedAt(shown, 0);
      var newest := NewestSequence(0, Reversed(shown));
      var k :| 0 <= k < |shown| && Reversed(shown)[k] == newest;
      ReversedAt(shown, k);
      assert newest == shown[|shown| - 1 - k] == log[|log| - 1 - k];
    }
  }

  /** After a full load and any number of polls, what was shown and what was committed since are together a gap-free
      end of the log, if the log only grew at higher sequence numbers. */
  lemma LoadAndPollsHaveNoGap(log: Log, polls: seq<Poll>, limit: nat)
    requires Growing([log] + AllLogs(polls)) && limit > 0
    ensures
      var p := Progress(NewestSequence(0, History(log, limit)), []);
      Seen(log, p, polls, limit) == LeftOut(log, limit) + Shown(log, limit) + CommitAll(p, polls, limit).committed
  {
    var p := Progress(NewestSequence(0, History(log, limit)), []);
    assert log == ([log] + AllLogs(polls))[0];
    LoadContinuesAtTheEnd(log, limit);
    AboveNone(log, p.sequence);
    PollsCommitTheLog(log, p, polls, limit);
    var new' := Above(Seen(log, p, polls, limit), p.sequence);
    assert [] + new' == new';
    NewRowsAreAbove(log, Seen(log, p, polls, limit), p.sequence);
    ShownAndLeftOut(log, limit);
  }

  lemma ShownAndLeftOut(log: Log, limit: nat)
    ensures log == LeftOut(log, limit) + Shown(log, limit)
  {
  }

  lemma NewRowsAreAbove(log: Log, seen: Log, sequence: nat)
    requires Ascending(seen) && log <= seen && sequence == if log == [] then 0 else log[|log| - 1]
    ensures seen == log + Above(seen, sequence)
  {
    var new' := seen[|log|..];
    assert forall k :: 0 <= k < |log| ==> log[k] == seen[k];
    assert forall k :: 0 <= k < |new'| ==> new'[k] == seen[|log| + k];
    AboveOfParts(seen, log, new', sequence);
  }
}
