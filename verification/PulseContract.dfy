/** What a pulse shows of each agent, in which order, and what the radar collects from it, in terms of the tables alone:
    these statements use no query of the code that they are about. */
module PulseContract {
  import opened Wrappers
  import opened Pulse
  import opened PulseTree

  // ----- The agents that are active, and what is shown of them -----

  /** A report of the day, or seen within the day. */
  ghost predicate WasActive(s: Source, k: nat)
    requires k < |s.agents|
  {
    || (exists i :: 0 <= i < |s.reports| && s.reports[i].agent == s.agents[k].id)
    || (s.startOfDay <= s.agents[k].lastSeenAt && s.agents[k].lastSeenAt <= s.endOfDay)
  }

  /** The agent's token, if it is in the table. */
  predicate CameThrough(s: Source, k: nat, token: TokenId)
    requires k < |s.agents|
  {
    s.agents[k].registeredVia == Some(token) && token in s.tokens
  }

  /** The agent's token is in the table, and so is the user who created it. */
  predicate BelongsTo(s: Source, k: nat, user: UserId)
    requires k < |s.agents|
  {
    && s.agents[k].registeredVia.Some? && s.agents[k].registeredVia.value in s.tokens
    && s.tokens[s.agents[k].registeredVia.value].createdBy == Some(user) && user in s.users
  }

  lemma {:induction false} OwnReports(reports: seq<Report>, agent: AgentId) returns (positions: seq<nat>)
    ensures Lists(positions, |reports|, (i: nat) => i < |reports| && reports[i].agent == agent)
    ensures |ReportsOf(reports, agent)| == |positions|
    ensures forall x :: 0 <= x < |positions| ==> ReportsOf(reports, agent)[x] == reports[positions[x]]
  {
    if reports == [] {
      positions := [];
    } else {
      var last := |reports| - 1;
      positions := OwnReports(reports[..last], agent);
      if reports[last].agent == agent {
        positions := positions + [last];
      }
    }
  }

  /** The agents of the pulse are those with a report of the day or a sign of life within it. */
  lemma ActivityIsExact(s: Source, k: nat)
    requires k < |s.agents|
    ensures s.IsActive(s.agents[k]) <==> WasActive(s, k)
  {
    HasReports(s.reports, s.agents[k].id);
  }

  lemma {:induction false} HasReports(reports: seq<Report>, agent: AgentId)
    ensures ReportsOf(reports, agent) != [] <==> exists i :: 0 <= i < |reports| && reports[i].agent == agent
  {
    if reports != [] {
      var rest := reports[..|reports| - 1];
      HasReports(rest, agent);
      assert forall i :: 0 <= i < |rest| ==> rest[i] == reports[i];
    }
  }

  /** Each agent is shown under its user and its token, with its presence. */
  lemma PlaceIsExact(s: Source, k: nat)
    requires k < |s.agents|
    ensures
      var a, p := s.agents[k], s.Place(s.agents[k]);
      && (forall u: UserId :: p.user == Some(u) <==> BelongsTo(s, k, u))
      && (forall t: TokenId :: p.connection == Some(t) <==> CameThrough(s, k, t))
      && p.agent.agent == a.id && p.agent.name == a.name && p.agent.client == a.client && p.agent.lastSeenAt == a.lastSeenAt
      && p.agent.status ==
         if s.now <= a.lastSeenAt + 300_000 then Online else if s.now <= a.lastSeenAt + 1_800_000 then IdleNow else Offline
  {
  }

  /** Its history are its reports in the order of their creation, and its latest report is the last of them. */
  lemma HistoryIsExact(s: Source, k: nat) returns (positions: seq<nat>)
    requires k < |s.agents|
    ensures Lists(positions, |s.reports|, (i: nat) => i < |s.reports| && s.reports[i].agent == s.agents[k].id)
    ensures
      var shown := s.Place(s.agents[k]).agent;
      && |shown.history| == |positions|
      && (forall x :: 0 <= x < |positions| ==> shown.history[x] == s.reports[positions[x]])
      && shown.latest == if positions == [] then None else Some(s.reports[positions[|positions| - 1]])
  {
    positions := OwnReports(s.reports, s.agents[k].id);
  }

  /** The rows at the positions where `holds` is true. */
  function Kept<T>(rows: seq<T>, holds: nat -> bool): seq<T> {
    if rows == [] then [] else Kept(rows[..|rows| - 1], holds) + if holds(|rows| - 1) then [rows[|rows| - 1]] else []
  }

  lemma KeptOneMore<T>(rows: seq<T>, holds: nat -> bool, positions: seq<nat>)
    requires rows != []
    requires
      var kept := Kept(rows[..|rows| - 1], holds);
      |kept| == |positions| && forall x :: 0 <= x < |positions| ==> positions[x] < |rows| - 1 && kept[x] == rows[positions[x]]
    ensures
      var last := |rows| - 1;
      var more := if holds(last) then positions + [last] else positions;
      && |Kept(rows, holds)| == |more|
      && forall x :: 0 <= x < |more| ==> more[x] < |rows| && Kept(rows, holds)[x] == rows[more[x]]
  {
  }

  lemma {:induction false} KeptLists<T>(rows: seq<T>, holds: nat -> bool) returns (positions: seq<nat>)
    ensures Lists(positions, |rows|, holds) && |Kept(rows, holds)| == |positions|
    ensures forall x :: 0 <= x < |positions| ==> positions[x] < |rows| && Kept(rows, holds)[x] == rows[positions[x]]
  {
    if rows == [] {
      positions := [];
    } else {
      var last := |rows| - 1;
      var before := KeptLists(rows[..last], holds);
      KeptOneMore(rows, holds, before);
      ListsOneMore(before, last, holds);
      positions := if holds(last) then before + [last] else before;
    }
  }

  lemma {:induction false} ActiveIsKept(reports: seq<Report>, rows: seq<Row>, startOfDay: int, endOfDay: int, active: nat -> bool)
    requires forall k: nat {:trigger active(k)} :: k < |rows| ==> (active(k) <==> ActiveOn(reports, rows[k].agent, startOfDay, endOfDay))
    ensures Active(reports, rows, startOfDay, endOfDay) == Kept(rows, active)
  {
    if rows != [] {
      var last := |rows| - 1;
      assert active(last) <==> ActiveOn(reports, rows[last].agent, startOfDay, endOfDay);
      ActiveIsKept(reports, rows[..last], startOfDay, endOfDay, active);
    }
  }

  lemma {:induction false} JoinedAt(agents: seq<Agent>, tokens: map<TokenId, Token>, users: map<UserId, User>, k: nat)
    requires k < |agents|
    ensures |JoinedAll(agents, tokens, users)| == |agents|
    ensures JoinedAll(agents, tokens, users)[k] == Joined(agents[k], tokens, users)
  {
    var last := |agents| - 1;
    if last > 0 {
      JoinedAt(agents[..last], tokens, users, if k < last then k else 0);
    } else {
      assert agents[..last] == [];
    }
  }

  /** The rows of the pulse are the active agents in the order of the query. */
  lemma RowsAreExact(s: Source) returns (positions: seq<nat>)
    ensures Lists(positions, |s.agents|, (k: nat) => k < |s.agents| && WasActive(s, k))
    ensures |s.Rows()| == |positions|
    ensures forall x :: 0 <= x < |positions| ==> s.Rows()[x].agent == s.agents[positions[x]]
  {
    var rows := JoinedAll(s.agents, s.tokens, s.users);
    var active: nat -> bool := (k: nat) => k < |s.agents| && WasActive(s, k);
    JoinedIsAsLong(s.agents, s.tokens, s.users);
    forall k | 0 <= k < |s.agents|
      ensures rows[k].agent == s.agents[k] && (ActiveOn(s.reports, rows[k].agent, s.startOfDay, s.endOfDay) <==> WasActive(s, k))
    {
      JoinedAt(s.agents, s.tokens, s.users, k);
      ActivityIsExact(s, k);
    }
    ActiveIsKept(s.reports, rows, s.startOfDay, s.endOfDay, active);
    positions := KeptLists(rows, active);
  }

  lemma JoinedIsAsLong(agents: seq<Agent>, tokens: map<TokenId, Token>, users: map<UserId, User>)
    ensures |JoinedAll(agents, tokens, users)| == |agents|
  {
    if agents != [] {
      JoinedAt(agents, tokens, users, 0);
    }
  }

  // ----- The order of the tree, and its names -----

  /** A developer is called by the user's name, else by the token's, if it has one. */
  predicate IsCalled(row: Row, displayName: string) {
    && (row.user.Some? ==> displayName == row.user.value.1.displayName)
    && (row.user.None? && row.token.Some? && row.token.value.1.name != "" ==> displayName == "Device: " + row.token.value.1.name)
    && (row.user.None? && (row.token.None? || row.token.value.1.name == "") ==> displayName == "CLI Agent")
  }

  predicate IsOfUser(row: Row, user: Option<UserId>) {
    user == if row.user.Some? then Some(row.user.value.0) else None
  }

  predicate IsThroughToken(row: Row, token: Option<TokenId>) {
    token == if row.token.Some? then Some(row.token.value.0) else None
  }

  /** The agents of a connection come from rows of its token, in their order. It is called by the token's name. */
  ghost predicate ShowsRows(c: Connection, rows: seq<Row>, summaries: seq<AgentSummary>, places: seq<nat>)
    requires |summaries| == |rows|
  {
    && |places| == |c.agents| > 0
    && (forall a :: 0 <= a < |places| ==>
          places[a] < |rows| && IsThroughToken(rows[places[a]], c.id) && c.agents[a] == summaries[places[a]])
    && (forall a, b :: 0 <= a < b < |places| ==> places[a] < places[b])
    && c.name == if rows[places[0]].token.Some? then rows[places[0]].token.value.1.name else "Direct CLI"
  }

  /** The connections of a developer show rows of the user, and come in the order of their first rows. */
  ghost predicate ShowsUser(d: Developer, rows: seq<Row>, summaries: seq<AgentSummary>, places: seq<seq<nat>>)
    requires |summaries| == |rows|
  {
    && |places| == |d.connections| > 0
    && (forall c :: 0 <= c < |places| ==> ShowsRows(d.connections[c], rows, summaries, places[c]))
    && (forall c, a :: 0 <= c < |places| && 0 <= a < |places[c]| ==> IsOfUser(rows[places[c][a]], d.user))
    && (forall c, e :: 0 <= c < e < |places| ==> places[c][0] < places[e][0])
    && IsCalled(rows[places[0][0]], d.displayName)
  }

  ghost predicate Occurs(places: seq<seq<seq<nat>>>, i: nat) {
    exists d, c, a :: 0 <= d < |places| && 0 <= c < |places[d]| && 0 <= a < |places[d][c]| && places[d][c][a] == i
  }

  /** The developers come in the order of their first rows, and every row is shown. */
  ghost predicate ShowsAll(developers: seq<Developer>, rows: seq<Row>, summaries: seq<AgentSummary>, places: seq<seq<seq<nat>>>)
    requires |summaries| == |rows|
  {
    && |places| == |developers|
    && (forall d :: 0 <= d < |places| ==> ShowsUser(developers[d], rows, summaries, places[d]))
    && (forall d, e :: 0 <= d < e < |places| ==> places[d][0][0] < places[e][0][0])
    && (forall i: nat :: i < |rows| ==> Occurs(places, i))
  }

  lemma StillShowsRows(c: Connection, rows: seq<Row>, summaries: seq<AgentSummary>, places: seq<nat>, row: Row, summary: AgentSummary)
    requires |summaries| == |rows| && ShowsRows(c, rows, summaries, places)
    ensures ShowsRows(c, rows + [row], summaries + [summary], places)
  {
  }

  lemma ShowsRowMore(c: Connection, rows: seq<Row>, summaries: seq<AgentSummary>, places: seq<nat>, row: Row, summary: AgentSummary)
    requires |summaries| == |rows| && ShowsRows(c, rows, summaries, places) && IsThroughToken(row, c.id)
    ensures ShowsRows(c.(agents := c.agents + [summary]), rows + [row], summaries + [summary], places + [|rows|])
  {
  }

  lemma StillShowsUser(
    d: Developer, rows: seq<Row>, summaries: seq<AgentSummary>, places: seq<seq<nat>>, row: Row, summary: AgentSummary)
    requires |summaries| == |rows| && ShowsUser(d, rows, summaries, places)
    ensures ShowsUser(d, rows + [row], summaries + [summary], places)
  {
    forall c | 0 <= c < |places|
      ensures ShowsRows(d.connections[c], rows + [row], summaries + [summary], places[c])
    {
      StillShowsRows(d.connections[c], rows, summaries, places[c], row, summary);
    }
  }

  lemma UpdatedConnection(
    d: Developer, rows: seq<Row>, summaries: seq<AgentSummary>, places: seq<seq<nat>>, c: nat, connection: Connection, n: nat)
    requires |summaries| == |rows| && ShowsUser(d, rows, summaries, places) && c < |places|
    requires n < |rows| && IsOfUser(rows[n], d.user) && ShowsRows(connection, rows, summaries, places[c] + [n])
    ensures ShowsUser(d.(connections := d.connections[c := connection]), rows, summaries, places[c := places[c] + [n]])
  {
  }

  lemma ShowsKnownToken(
    d: Developer, rows: seq<Row>, summaries: seq<AgentSummary>, places: seq<seq<nat>>, row: Row, summary: AgentSummary, c: nat,
    connections: seq<Connection>, after: seq<seq<nat>>)
    requires |summaries| == |rows| && IsOfUser(row, d.user)
    requires ShowsUser(d, rows + [row], summaries + [summary], places)
    requires c < |places| == |d.connections| && ShowsRows(d.connections[c], rows, summaries, places[c])
    requires IsThroughToken(row, d.connections[c].id)
    requires connections == d.connections[c := d.connections[c].(agents := d.connections[c].agents + [summary])]
    requires after == places[c := places[c] + [|rows|]]
    ensures ShowsUser(d.(connections := connections), rows + [row], summaries + [summary], after)
  {
    ShowsRowMore(d.connections[c], rows, summaries, places[c], row, summary);
    UpdatedConnection(d, rows + [row], summaries + [summary], places, c, connections[c], |rows|);
  }

  lemma ShowsNewToken(
    d: Developer, rows: seq<Row>, summaries: seq<AgentSummary>, places: seq<seq<nat>>, row: Row, summary: AgentSummary,
    connections: seq<Connection>, after: seq<seq<nat>>)
    requires |summaries| == |rows| && ShowsUser(d, rows, summaries, places) && IsOfUser(row, d.user)
    requires ShowsUser(d, rows + [row], summaries + [summary], places)
    requires connections == d.connections + [Connection(TokenOf(row), ConnectionName(row), [summary])]
    requires after == places + [[|rows|]]
    ensures ShowsUser(d.(connections := connections), rows + [row], summaries + [summary], after)
  {
    var connection := Connection(TokenOf(row), ConnectionName(row), [summary]);
    assert ShowsRows(connection, rows + [row], summaries + [summary], [|rows|]);
  }

  /** Where a summary goes among the connections of its developer. */
  lemma AddedConnection(connections: seq<Connection>, row: Row, summary: AgentSummary) returns (c: nat)
    ensures c <= |connections| && (c < |connections| ==> IsThroughToken(row, connections[c].id))
    ensures
      AddToConnections(connections, row, summary) ==
      if c < |connections| then connections[c := connections[c].(agents := connections[c].agents + [summary])]
      else connections + [Connection(TokenOf(row), ConnectionName(row), [summary])]
  {
    AddToConnectionsAt(connections, row, summary);
    c := IndexOf(connections, IsThrough(TokenOf(row)));
    assert [] + [summary] == [summary];
  }

  lemma FirstPlaceStays(
    d: Developer, rows: seq<Row>, summaries: seq<AgentSummary>, places: seq<seq<nat>>, c: nat, after: seq<seq<nat>>)
    requires |summaries| == |rows| && ShowsUser(d, rows, summaries, places) && c <= |places|
    requires after == if c < |places| then places[c := places[c] + [|rows|]] else places + [[|rows|]]
    ensures after != [] && after[0] != [] && places != [] && places[0] != [] && after[0][0] == places[0][0] < |rows|
    ensures |places| == |d.connections|
  {
  }

  /** A row that comes last goes to the end of its connection, or becomes the last connection. */
  lemma ShowsUserMore(
    d: Developer, rows: seq<Row>, summaries: seq<AgentSummary>, places: seq<seq<nat>>, row: Row, summary: AgentSummary,
    connections: seq<Connection>)
    returns (c: nat, after: seq<seq<nat>>)
    requires |summaries| == |rows| && ShowsUser(d, rows, summaries, places) && IsOfUser(row, d.user)
    requires ShowsUser(d, rows + [row], summaries + [summary], places)
    requires |places| == |d.connections| && connections == AddToConnections(d.connections, row, summary)
    ensures ShowsUser(d.(connections := connections), rows + [row], summaries + [summary], after)
    ensures c <= |places| && after == if c < |places| then places[c := places[c] + [|rows|]] else places + [[|rows|]]
  {
    c := AddedConnection(d.connections, row, summary);
    if c < |places| {
      after := places[c := places[c] + [|rows|]];
      assert ShowsRows(d.connections[c], rows, summaries, places[c]);
      ShowsKnownToken(d, rows, summaries, places, row, summary, c, connections, after);
    } else {
      after := places + [[|rows|]];
      ShowsNewToken(d, rows, summaries, places, row, summary, connections, after);
    }
  }

  lemma OccursInOld(places: seq<seq<seq<nat>>>, d: nat, c: nat, n: nat, after: seq<seq<seq<nat>>>, i: nat)
    requires d < |places| && c <= |places[d]|
    requires after == places[d := if c < |places[d]| then places[d][c := places[d][c] + [n]] else places[d] + [[n]]]
    ensures Occurs(places, i) ==> Occurs(after, i)
    ensures Occurs(after, n)
  {
    if e, b, a :| 0 <= e < |places| && 0 <= b < |places[e]| && 0 <= a < |places[e][b]| && places[e][b][a] == i {
      assert after[e][b][a] == i;
    }
    var at := if c < |places[d]| then |places[d][c]| else 0;
    assert after[d][c][at] == n;
  }

  lemma OccursInNew(places: seq<seq<seq<nat>>>, n: nat, i: nat)
    ensures Occurs(places, i) ==> Occurs(places + [[[n]]], i)
    ensures Occurs(places + [[[n]]], n)
  {
    var after := places + [[[n]]];
    if e, b, a :| 0 <= e < |places| && 0 <= b < |places[e]| && 0 <= a < |places[e][b]| && places[e][b][a] == i {
      assert after[e][b][a] == i;
    }
    assert after[|places|][0][0] == n;
  }

  /** Every row that was shown still is, and so is the last one. */
  lemma AllOccur(places: seq<seq<seq<nat>>>, d: nat, c: nat, n: nat, after: seq<seq<seq<nat>>>)
    requires forall i: nat :: i < n ==> Occurs(places, i)
    requires d < |places| && c <= |places[d]|
    requires after == places[d := if c < |places[d]| then places[d][c := places[d][c] + [n]] else places[d] + [[n]]]
    ensures forall i: nat :: i < n + 1 ==> Occurs(after, i)
  {
    forall i: nat | i < n + 1
      ensures Occurs(after, i)
    {
      OccursInOld(places, d, c, n, after, i);
    }
  }

  /** The developers' first places ascend, below a bound. */
  ghost predicate FirstsAscend(places: seq<seq<seq<nat>>>, n: nat) {
    && (forall d :: 0 <= d < |places| ==> places[d] != [] && places[d][0] != [] && places[d][0][0] < n)
    && (forall d, e :: 0 <= d < e < |places| ==> places[d][0][0] < places[e][0][0])
  }

  lemma ShownFirstsAscend(developers: seq<Developer>, rows: seq<Row>, summaries: seq<AgentSummary>, places: seq<seq<seq<nat>>>)
    requires |summaries| == |rows| && ShowsAll(developers, rows, summaries, places)
    ensures FirstsAscend(places, |rows|)
  {
  }

  /** With one developer's part replaced, the tree shows the rows if the first places stay. */
  lemma ReplacedUser(
    developers: seq<Developer>, rows: seq<Row>, summaries: seq<AgentSummary>, places: seq<seq<seq<nat>>>, d: nat,
    developer: Developer, there: seq<seq<nat>>, after: seq<seq<seq<nat>>>, n: nat)
    requires |summaries| == |rows| && |places| == |developers| && d < |places| && FirstsAscend(places, n)
    requires forall e :: 0 <= e < |places| ==> ShowsUser(developers[e], rows, summaries, places[e])
    requires ShowsUser(developer, rows, summaries, there) && there[0][0] == places[d][0][0]
    requires after == places[d := there] && forall i: nat :: i < |rows| ==> Occurs(after, i)
    ensures ShowsAll(developers[d := developer], rows, summaries, after)
  {
  }

  /** So does it with one more developer, whose place is behind all others. */
  lemma AddedUser(
    developers: seq<Developer>, rows: seq<Row>, summaries: seq<AgentSummary>, places: seq<seq<seq<nat>>>,
    developer: Developer, after: seq<seq<seq<nat>>>, n: nat)
    requires |summaries| == |rows| && |places| == |developers| && FirstsAscend(places, n)
    requires forall e :: 0 <= e < |places| ==> ShowsUser(developers[e], rows, summaries, places[e])
    requires ShowsUser(developer, rows, summaries, [[n]])
    requires after == places + [[[n]]] && forall i: nat :: i < |rows| ==> Occurs(after, i)
    ensures ShowsAll(developers + [developer], rows, summaries, after)
  {
  }

  /** A row that comes last goes to its developer. */
  lemma ShowsKnownUser(
    developers: seq<Developer>, rows: seq<Row>, summaries: seq<AgentSummary>, places: seq<seq<seq<nat>>>, row: Row,
    summary: AgentSummary, d: nat, developer: Developer)
    returns (after: seq<seq<seq<nat>>>)
    requires |summaries| == |rows| && |places| == |developers| && FirstsAscend(places, |rows|)
    requires d < |developers| && IsOfUser(row, developers[d].user)
    requires ShowsUser(developers[d], rows, summaries, places[d]) && |places[d]| == |developers[d].connections|
    requires forall e :: 0 <= e < |places| ==> ShowsUser(developers[e], rows + [row], summaries + [summary], places[e])
    requires forall i: nat :: i < |rows| ==> Occurs(places, i)
    requires developer == developers[d].(connections := AddToConnections(developers[d].connections, row, summary))
    ensures ShowsAll(developers[d := developer], rows + [row], summaries + [summary], after)
  {
    var c, there := ShowsUserMore(developers[d], rows, summaries, places[d], row, summary, developer.connections);
    FirstPlaceStays(developers[d], rows, summaries, places[d], c, there);
    after := places[d := there];
    AllOccur(places, d, c, |rows|, after);
    ReplacedUser(developers, rows + [row], summaries + [summary], places, d, developer, there, after, |rows|);
  }

  lemma ShowsOnlyRow(row: Row, rows: seq<Row>, summary: AgentSummary, summaries: seq<AgentSummary>)
    requires |summaries| == |rows| > 0 && rows[|rows| - 1] == row && summaries[|rows| - 1] == summary
    ensures
      ShowsUser(Developer(UserOf(row), DeveloperName(row), [Connection(TokenOf(row), ConnectionName(row), [summary])]),
                rows, summaries, [[|rows| - 1]])
  {
    assert ShowsRows(Connection(TokenOf(row), ConnectionName(row), [summary]), rows, summaries, [|rows| - 1]);
  }

  /** Or it becomes the last developer. */
  lemma ShowsNewUser(
    developers: seq<Developer>, rows: seq<Row>, summaries: seq<AgentSummary>, places: seq<seq<seq<nat>>>, row: Row,
    summary: AgentSummary)
    returns (after: seq<seq<seq<nat>>>)
    requires |summaries| == |rows| && |places| == |developers| && FirstsAscend(places, |rows|)
    requires forall e :: 0 <= e < |places| ==> ShowsUser(developers[e], rows + [row], summaries + [summary], places[e])
    requires forall i: nat :: i < |rows| ==> Occurs(places, i)
    ensures
      var new' := Developer(UserOf(row), DeveloperName(row), [Connection(TokenOf(row), ConnectionName(row), [summary])]);
      ShowsAll(developers + [new'], rows + [row], summaries + [summary], after)
  {
    var new' := Developer(UserOf(row), DeveloperName(row), [Connection(TokenOf(row), ConnectionName(row), [summary])]);
    after := places + [[[|rows|]]];
    ShowsOnlyRow(row, rows + [row], summary, summaries + [summary]);
    forall i: nat | i < |rows| + 1
      ensures Occurs(after, i)
    {
      OccursInNew(places, |rows|, i);
    }
    AddedUser(developers, rows + [row], summaries + [summary], places, new', after, |rows|);
  }

  /** Where a summary goes in the tree. */
  lemma AddedDeveloper(developers: seq<Developer>, row: Row, summary: AgentSummary) returns (d: nat)
    ensures d <= |developers| && (d < |developers| ==> IsOfUser(row, developers[d].user))
    ensures
      AddToTree(developers, row, summary) ==
      if d < |developers| then developers[d := developers[d].(connections := AddToConnections(developers[d].connections, row, summary))]
      else developers + [Developer(UserOf(row), DeveloperName(row), [Connection(TokenOf(row), ConnectionName(row), [summary])])]
  {
    AddToTreeAt(developers, row, summary);
    d := IndexOf(developers, IsOf(UserOf(row)));
    assert AddToConnections([], row, summary) == [Connection(TokenOf(row), ConnectionName(row), [summary])];
  }

  lemma StillShowsUsers(
    developers: seq<Developer>, rows: seq<Row>, summaries: seq<AgentSummary>, places: seq<seq<seq<nat>>>, row: Row,
    summary: AgentSummary)
    requires |summaries| == |rows| && ShowsAll(developers, rows, summaries, places)
    ensures forall e :: 0 <= e < |places| ==> ShowsUser(developers[e], rows + [row], summaries + [summary], places[e])
  {
    forall e | 0 <= e < |places|
      ensures ShowsUser(developers[e], rows + [row], summaries + [summary], places[e])
    {
      StillShowsUser(developers[e], rows, summaries, places[e], row, summary);
    }
  }

  lemma ShowsOneMore(
    developers: seq<Developer>, rows: seq<Row>, summaries: seq<AgentSummary>, places: seq<seq<seq<nat>>>, row: Row,
    summary: AgentSummary)
    returns (after: seq<seq<seq<nat>>>)
    requires |summaries| == |rows| && ShowsAll(developers, rows, summaries, places)
    ensures ShowsAll(AddToTree(developers, row, summary), rows + [row], summaries + [summary], after)
  {
    var d := AddedDeveloper(developers, row, summary);
    StillShowsUsers(developers, rows, summaries, places, row, summary);
    ShownFirstsAscend(developers, rows, summaries, places);
    if d < |places| {
      var developer := developers[d].(connections := AddToConnections(developers[d].connections, row, summary));
      assert ShowsUser(developers[d], rows, summaries, places[d]);
      after := ShowsKnownUser(developers, rows, summaries, places, row, summary, d, developer);
    } else {
      after := ShowsNewUser(developers, rows, summaries, places, row, summary);
    }
  }

  function Summaries(reports: seq<Report>, rows: seq<Row>, now: int): (all: seq<AgentSummary>)
    ensures |all| == |rows|
  {
    seq(|rows|, k requires 0 <= k < |rows| => Summary(reports, rows[k].agent, now))
  }

  lemma SummariesOfOneMore(reports: seq<Report>, rows: seq<Row>, row: Row, now: int)
    ensures Summaries(reports, rows + [row], now) == Summaries(reports, rows, now) + [Summary(reports, row.agent, now)]
  {
  }

  /** The tree groups the active agents by user and token, in the order of the query throughout. */
  lemma {:induction false} TreeIsGrouped(reports: seq<Report>, rows: seq<Row>, now: int) returns (places: seq<seq<seq<nat>>>)
    ensures ShowsAll(Tree(reports, rows, now), rows, Summaries(reports, rows, now), places)
  {
    if rows == [] {
      places := [];
    } else {
      var rest, row := rows[..|rows| - 1], rows[|rows| - 1];
      places := TreeIsGrouped(reports, rest, now);
      places := ShowsOneMore(Tree(reports, rest, now), rest, Summaries(reports, rest, now), places, row, Summary(reports, row.agent, now));
      SummariesOfOneMore(reports, rest, row, now);
      assert rest + [row] == rows;
    }
  }

  // ----- The radar -----

  /** What the radar says about a blocked agent. */
  predicate Describes(entry: BlockedAgent, developer: Developer, connection: Connection, agent: AgentSummary) {
    && agent.latest.Some? && agent.latest.value.state == Blocked && agent.latest.value.resolvedAt.None?
    && entry.report == agent.latest.value.id && entry.files == agent.latest.value.files
    && entry.developer == developer.displayName && entry.connection == connection.name
    && entry.agent == agent.name && entry.client == agent.client && entry.status == agent.status
    && (agent.latest.value.blockerReason.Some? ==> entry.reason == agent.latest.value.blockerReason.value)
    && (agent.latest.value.blockerReason.None? ==> entry.reason == "Blocker flagged without details")
  }

  predicate IsBlocked(agent: AgentSummary) {
    agent.latest.Some? && agent.latest.value.state == Blocked && agent.latest.value.resolvedAt.None?
  }

  /** The radar goes through the agents of a connection in their order, and lists those that are blocked: what it lists
      of two parts are the lists of both. */
  lemma {:induction false} RadarOfAgents(
    developer: Developer, connection: Connection, first: seq<AgentSummary>, second: seq<AgentSummary>, agent: AgentSummary)
    ensures
      BlockedIn(developer, connection, first + second) ==
      BlockedIn(developer, connection, first) + BlockedIn(developer, connection, second)
    ensures
      var listed := BlockedIn(developer, connection, [agent]);
      if IsBlocked(agent) then |listed| == 1 && Describes(listed[0], developer, connection, agent) else listed == []
  {
    assert [agent][..0] == [] && BlockedIn(developer, connection, []) == [];
    if second == [] {
      assert first + second == first;
    } else {
      var last := |second| - 1;
      RadarOfAgents(developer, connection, first, second[..last], agent);
      assert (first + second)[..|first| + last] == first + second[..last];
    }
  }

  /** Over a developer it goes through the connections in their order: what it lists of two parts are the lists of both. */
  lemma {:induction false} RadarOfConnections(developer: Developer, first: seq<Connection>, second: seq<Connection>, c: Connection)
    ensures
      BlockedInConnections(developer, first + second) ==
      BlockedInConnections(developer, first) + BlockedInConnections(developer, second)
    ensures BlockedInConnections(developer, [c]) == BlockedIn(developer, c, c.agents)
  {
    assert [c][1..] == [] && BlockedInConnections(developer, []) == [];
    if first == [] {
      assert first + second == second;
    } else {
      RadarOfConnections(developer, first[1..], second, c);
      assert (first + second)[1..] == first[1..] + second;
    }
  }

  /** And over a tree it goes through the developers in their order. */
  lemma {:induction false} RadarOfDevelopers(first: seq<Developer>, second: seq<Developer>, d: Developer)
    ensures BlockedInTree(first + second) == BlockedInTree(first) + BlockedInTree(second)
    ensures BlockedInTree([d]) == BlockedInConnections(d, d.connections)
  {
    assert [d][1..] == [] && BlockedInTree([]) == [];
    if first == [] {
      assert first + second == second;
    } else {
      RadarOfDevelopers(first[1..], second, d);
      assert (first + second)[1..] == first[1..] + second;
    }
  }

  // ----- The order of files -----

  /** A name comes before another if it is a proper beginning of it, or has the smaller code unit where they first
      differ. */
  lemma {:induction false} OrderIsLexicographic(a: FileName, b: FileName) returns (n: nat)
    ensures n <= |a| && n <= |b| && (forall k :: 0 <= k < n ==> a[k] == b[k])
    ensures n < |a| && n < |b| ==> a[n] != b[n]
    ensures Before(a, b) <==> n < |b| && (n == |a| || a[n] < b[n])
    decreases |a|
  {
    if a == [] || b == [] || a[0] != b[0] {
      n := 0;
    } else {
      var m := OrderIsLexicographic(a[1..], b[1..]);
      n := m + 1;
      forall k | 0 <= k < n
        ensures a[k] == b[k]
      {
        assert k > 0 ==> a[1..][k - 1] == b[1..][k - 1];
      }
    }
  }
}
