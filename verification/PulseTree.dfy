/** The pulse's tree agrees with its counters and with the tables that it was read from. */
module PulseTree {
  import opened Wrappers
  import opened Pulse

  // ----- Each active agent hangs in the tree once -----

  function PlacementOf(row: Row, summary: AgentSummary): Placement {
    Placement(UserOf(row), TokenOf(row), summary)
  }

  lemma {:induction false} AddToConnectionsAddsOne(
    user: Option<UserId>, connections: seq<Connection>, row: Row, summary: AgentSummary)
    requires user == UserOf(row)
    ensures multiset(InConnections(user, AddToConnections(connections, row, summary)))
         == multiset(InConnections(user, connections)) + multiset{PlacementOf(row, summary)}
  {
    var after := AddToConnections(connections, row, summary);
    if connections == [] {
      assert after[1..] == [];
      assert InConnection(user, after[0]) == [PlacementOf(row, summary)];
    } else if connections[0].id == TokenOf(row) {
      assert after[1..] == connections[1..];
      assert InConnection(user, after[0]) == InConnection(user, connections[0]) + [PlacementOf(row, summary)];
    } else {
      assert after[1..] == AddToConnections(connections[1..], row, summary);
      AddToConnectionsAddsOne(user, connections[1..], row, summary);
    }
  }

  lemma {:induction false} AddToTreeAddsOne(developers: seq<Developer>, row: Row, summary: AgentSummary)
    ensures multiset(InTree(AddToTree(developers, row, summary)))
         == multiset(InTree(developers)) + multiset{PlacementOf(row, summary)}
  {
    var after := AddToTree(developers, row, summary);
    if developers == [] {
      assert after[1..] == [];
      AddToConnectionsAddsOne(UserOf(row), [], row, summary);
    } else if developers[0].user == UserOf(row) {
      assert after[1..] == developers[1..];
      AddToConnectionsAddsOne(UserOf(row), developers[0].connections, row, summary);
    } else {
      assert after[1..] == AddToTree(developers[1..], row, summary);
      AddToTreeAddsOne(developers[1..], row, summary);
    }
  }

  lemma {:induction false} TreeHoldsPlacements(reports: seq<Report>, rows: seq<Row>, now: int)
    ensures multiset(InTree(Tree(reports, rows, now))) == multiset(PlacedAll(reports, rows, now))
  {
    if rows != [] {
      var rest, row := rows[..|rows| - 1], rows[|rows| - 1];
      assert rest + [row] == rows;
      var before := Tree(reports, rest, now);
      assert multiset(InTree(before)) == multiset(PlacedAll(reports, rest, now)) by {
        TreeHoldsPlacements(reports, rest, now);
      }
      AddToTreeAddsOne(before, row, Summary(reports, row.agent, now));
      PlacedWithLast(reports, rest, row, now);
    }
  }

  lemma PlacedWithLast(reports: seq<Report>, rest: seq<Row>, row: Row, now: int)
    ensures multiset(PlacedAll(reports, rest + [row], now))
         == multiset(PlacedAll(reports, rest, now)) + multiset{Placed(reports, row, now)}
  {
    assert PlacedAll(reports, rest + [row], now) == PlacedAll(reports, rest, now) + [Placed(reports, row, now)];
  }

  ghost predicate DistinctAgents(agents: seq<Agent>) {
    forall i, j :: 0 <= i < j < |agents| ==> agents[i].id != agents[j].id
  }

  /** The tables that a pulse is read from, and the day. */
  datatype Source = Source(
    reports: seq<Report>, agents: seq<Agent>, tokens: map<TokenId, Token>, users: map<UserId, User>,
    startOfDay: int, endOfDay: int, now: int)
  {
    predicate IsActive(agent: Agent) {
      ActiveOn(reports, agent, startOfDay, endOfDay)
    }

    function Rows(): seq<Row> {
      Active(reports, JoinedAll(agents, tokens, users), startOfDay, endOfDay)
    }

    function Developers(): seq<Developer> {
      Tree(reports, Rows(), now)
    }

    function Place(agent: Agent): Placement {
      Placed(reports, Joined(agent, tokens, users), now)
    }

    /** The source without its last agent. */
    function WithoutLast(): Source
      requires agents != []
    {
      this.(agents := agents[..|agents| - 1])
    }
  }

  lemma RowsWithLast(s: Source)
    requires s.agents != []
    ensures
      var last := s.agents[|s.agents| - 1];
      s.Rows() == s.WithoutLast().Rows() + if s.IsActive(last) then [Joined(last, s.tokens, s.users)] else []
  {
    var rows := JoinedAll(s.agents, s.tokens, s.users);
    assert rows[..|rows| - 1] == JoinedAll(s.agents[..|s.agents| - 1], s.tokens, s.users);
  }

  lemma {:induction false} RowsAreActiveAgents(s: Source, row: Row)
    ensures row in s.Rows() <==>
            exists k :: 0 <= k < |s.agents| && s.IsActive(s.agents[k]) && row == Joined(s.agents[k], s.tokens, s.users)
    decreases |s.agents|
  {
    if s.agents != [] {
      var n, t := |s.agents| - 1, s.WithoutLast();
      RowsWithLast(s);
      RowsAreActiveAgents(t, row);
      assert forall k :: 0 <= k < n ==> t.agents[k] == s.agents[k];
      if row in t.Rows() {
        var k :| 0 <= k < n && t.IsActive(t.agents[k]) && row == Joined(t.agents[k], t.tokens, t.users);
        assert s.IsActive(s.agents[k]);
      }
    }
  }

  lemma {:induction false} RowsAreDistinct(s: Source, i: nat, j: nat)
    requires DistinctAgents(s.agents) && i < j < |s.Rows()|
    ensures s.Rows()[i].agent.id != s.Rows()[j].agent.id
    decreases |s.agents|
  {
    if s.agents != [] {
      var n, t := |s.agents| - 1, s.WithoutLast();
      RowsWithLast(s);
      if j < |t.Rows()| {
        RowsAreDistinct(t, i, j);
      } else {
        RowsAreActiveAgents(t, t.Rows()[i]);
        var k :| 0 <= k < n && t.IsActive(t.agents[k]) && t.Rows()[i] == Joined(t.agents[k], t.tokens, t.users);
        assert t.agents[k] == s.agents[k];
      }
    }
  }

  lemma {:induction false} DistinctOccursOnce(all: seq<Placement>, p: Placement)
    requires forall i, j :: 0 <= i < j < |all| ==> all[i] != all[j]
    ensures multiset(all)[p] == if p in all then 1 else 0
  {
    if all != [] {
      var n := |all| - 1;
      assert all == all[..n] + [all[n]];
      DistinctOccursOnce(all[..n], p);
    }
  }

  lemma PlacementsAreOfActiveAgents(s: Source, p: Placement)
    ensures p in PlacedAll(s.reports, s.Rows(), s.now) <==>
            exists k :: 0 <= k < |s.agents| && s.IsActive(s.agents[k]) && p == s.Place(s.agents[k])
  {
    var all := PlacedAll(s.reports, s.Rows(), s.now);
    if p in all {
      var i :| 0 <= i < |all| && all[i] == p;
      RowsAreActiveAgents(s, s.Rows()[i]);
      var k :| 0 <= k < |s.agents| && s.IsActive(s.agents[k]) && s.Rows()[i] == Joined(s.agents[k], s.tokens, s.users);
      assert p == s.Place(s.agents[k]);
    }
    if k :| 0 <= k < |s.agents| && s.IsActive(s.agents[k]) && p == s.Place(s.agents[k]) {
      RowsAreActiveAgents(s, Joined(s.agents[k], s.tokens, s.users));
      var i :| 0 <= i < |s.Rows()| && s.Rows()[i] == Joined(s.agents[k], s.tokens, s.users);
      assert all[i] == p;
    }
  }

  /** The tree holds every active agent exactly once, under its user and its connection with its own reports, and holds
      nothing else. */
  lemma TreeHoldsActiveAgentsOnce(s: Source)
    requires DistinctAgents(s.agents)
    ensures |InTree(s.Developers())| == |s.Rows()|
    ensures forall k :: 0 <= k < |s.agents| ==>
              multiset(InTree(s.Developers()))[s.Place(s.agents[k])] == if s.IsActive(s.agents[k]) then 1 else 0
    ensures forall p :: p in InTree(s.Developers()) ==>
              exists k :: 0 <= k < |s.agents| && s.IsActive(s.agents[k]) && p == s.Place(s.agents[k])
  {
    var all, tree := PlacedAll(s.reports, s.Rows(), s.now), InTree(s.Developers());
    TreeHoldsPlacements(s.reports, s.Rows(), s.now);
    assert |tree| == |multiset(tree)| && |all| == |multiset(all)|;
    forall i, j | 0 <= i < j < |all|
      ensures all[i] != all[j]
    {
      RowsAreDistinct(s, i, j);
    }
    forall k | 0 <= k < |s.agents|
      ensures multiset(tree)[s.Place(s.agents[k])] == if s.IsActive(s.agents[k]) then 1 else 0
    {
      var p := s.Place(s.agents[k]);
      DistinctOccursOnce(all, p);
      PlacementsAreOfActiveAgents(s, p);
      if p in all {
        var i :| 0 <= i < |s.agents| && s.IsActive(s.agents[i]) && p == s.Place(s.agents[i]);
        assert s.agents[i].id == s.agents[k].id;
      }
    }
    forall p | p in tree
      ensures exists k :: 0 <= k < |s.agents| && s.IsActive(s.agents[k]) && p == s.Place(s.agents[k])
    {
      assert p in multiset(tree) && p in multiset(all);
      PlacementsAreOfActiveAgents(s, p);
    }
  }

  // ----- Connections are distinct, and sessions count them -----

  /** Connections are distinct and not empty. */
  ghost predicate ConnectionsOk(connections: seq<Connection>) {
    && (forall i, j :: 0 <= i < j < |connections| ==> connections[i].id != connections[j].id)
    && (forall i :: 0 <= i < |connections| ==> connections[i].agents != [])
  }

  ghost predicate TreeOk(developers: seq<Developer>) {
    && (forall i, j :: 0 <= i < j < |developers| ==> developers[i].user != developers[j].user)
    && (forall i :: 0 <= i < |developers| ==> developers[i].connections != [] && ConnectionsOk(developers[i].connections))
  }

  lemma AddKeepsConnections(connections: seq<Connection>, row: Row, summary: AgentSummary)
    requires ConnectionsOk(connections)
    ensures ConnectionsOk(AddToConnections(connections, row, summary)) && AddToConnections(connections, row, summary) != []
  {
    AddToConnectionsAt(connections, row, summary);
  }

  lemma AddKeepsTree(developers: seq<Developer>, row: Row, summary: AgentSummary)
    requires TreeOk(developers)
    ensures TreeOk(AddToTree(developers, row, summary))
  {
    AddToTreeAt(developers, row, summary);
    var d := IndexOf(developers, IsOf(UserOf(row)));
    AddKeepsConnections(if d < |developers| then developers[d].connections else [], row, summary);
  }

  lemma {:induction false} TreeIsOk(reports: seq<Report>, rows: seq<Row>, now: int)
    ensures TreeOk(Tree(reports, rows, now))
  {
    if rows != [] {
      var n := |rows| - 1;
      TreeIsOk(reports, rows[..n], now);
      AddKeepsTree(Tree(reports, rows[..n], now), rows[n], Summary(reports, rows[n].agent, now));
    }
  }

  function ConnectionsOf(all: seq<Placement>): set<Option<TokenId>> {
    set p | p in all :: p.connection
  }

  /** A connection belongs to one user: the token's, or nobody. */
  ghost predicate Coherent(all: seq<Placement>) {
    forall p, q :: p in all && q in all && p.connection == q.connection ==> p.user == q.user
  }

  lemma {:induction false} ConnectionsCount(user: Option<UserId>, connections: seq<Connection>)
    requires ConnectionsOk(connections)
    ensures |ConnectionsOf(InConnections(user, connections))| == |connections|
    ensures forall p :: p in InConnections(user, connections) ==>
              p.user == user && exists k :: 0 <= k < |connections| && connections[k].id == p.connection
  {
    if connections != [] {
      var first, rest := InConnection(user, connections[0]), InConnections(user, connections[1..]);
      ConnectionsCount(user, connections[1..]);
      forall p | p in rest
        ensures exists k :: 0 < k < |connections| && connections[k].id == p.connection
      {
        var k :| 0 <= k < |connections| - 1 && connections[1..][k].id == p.connection;
        assert connections[k + 1].id == p.connection;
      }
      assert first[0] in first;
      assert ConnectionsOf(first + rest) == {connections[0].id} + ConnectionsOf(rest);
      assert connections[0].id !in ConnectionsOf(rest);
    }
  }

  /** The sessions counted over the tree are its distinct connections. */
  lemma {:induction false} SessionsAreDistinctConnections(developers: seq<Developer>)
    requires TreeOk(developers) && Coherent(InTree(developers))
    ensures Sessions(developers) == |ConnectionsOf(InTree(developers))|
    ensures forall p :: p in InTree(developers) ==> exists k :: 0 <= k < |developers| && developers[k].user == p.user
  {
    if developers != [] {
      var first, rest := InConnections(developers[0].user, developers[0].connections), InTree(developers[1..]);
      ConnectionsCount(developers[0].user, developers[0].connections);
      assert forall p :: p in rest ==> p in InTree(developers);
      SessionsAreDistinctConnections(developers[1..]);
      forall p | p in rest
        ensures exists k :: 0 < k < |developers| && developers[k].user == p.user
      {
        var k :| 0 <= k < |developers| - 1 && developers[1..][k].user == p.user;
        assert developers[k + 1].user == p.user;
      }
      assert ConnectionsOf(first + rest) == ConnectionsOf(first) + ConnectionsOf(rest);
      assert ConnectionsOf(first) !! ConnectionsOf(rest);
    }
  }

  lemma {:induction false} ConnectionHangsInDeveloper(user: Option<UserId>, connections: seq<Connection>, i: nat)
    requires i < |connections| && connections[i].agents != []
    ensures Placement(user, connections[i].id, connections[i].agents[0]) in InConnections(user, connections)
  {
    if i == 0 {
      assert InConnection(user, connections[0])[0] in InConnection(user, connections[0]);
    } else {
      ConnectionHangsInDeveloper(user, connections[1..], i - 1);
    }
  }

  lemma {:induction false} ConnectionHangsInTree(developers: seq<Developer>, d: nat, i: nat)
    requires d < |developers| && i < |developers[d].connections| && developers[d].connections[i].agents != []
    ensures
      var connection := developers[d].connections[i];
      Placement(developers[d].user, connection.id, connection.agents[0]) in InTree(developers)
  {
    if d == 0 {
      ConnectionHangsInDeveloper(developers[0].user, developers[0].connections, i);
    } else {
      ConnectionHangsInTree(developers[1..], d - 1, i);
    }
  }

  /** No connection occurs twice in the tree, not even under two developers. */
  lemma ConnectionsAreDistinct(s: Source, d: nat, i: nat, e: nat, j: nat)
    requires DistinctAgents(s.agents)
    requires d < |s.Developers()| && i < |s.Developers()[d].connections| && e < |s.Developers()| && j < |s.Developers()[e].connections|
    requires s.Developers()[d].connections[i].id == s.Developers()[e].connections[j].id
    ensures d == e && i == j
  {
    TreeIsOk(s.reports, s.Rows(), s.now);
    TreeHoldsActiveAgentsOnce(s);
    ConnectionHangsInTree(s.Developers(), d, i);
    ConnectionHangsInTree(s.Developers(), e, j);
    assert s.Developers()[d].user == s.Developers()[e].user;
  }

  function TokensOf(rows: seq<Row>): set<Option<TokenId>> {
    set row | row in rows :: TokenOf(row)
  }

  /** The sessions of a pulse are the distinct tokens of the active agents; all agents without a token share one. */
  lemma SessionsAreDistinctTokens(s: Source)
    requires DistinctAgents(s.agents)
    ensures TreeOk(s.Developers())
    ensures Sessions(s.Developers()) == |TokensOf(s.Rows())|
  {
    TreeIsOk(s.reports, s.Rows(), s.now);
    TreeHoldsActiveAgentsOnce(s);
    SessionsAreDistinctConnections(s.Developers());
    ConnectionsAreTokens(s);
  }

  lemma ConnectionsAreTokens(s: Source)
    requires DistinctAgents(s.agents)
    ensures ConnectionsOf(InTree(s.Developers())) == TokensOf(s.Rows())
  {
    var tree := InTree(s.Developers());
    TreeHoldsActiveAgentsOnce(s);
    forall p | p in tree
      ensures p.connection in TokensOf(s.Rows())
    {
      var k :| 0 <= k < |s.agents| && s.IsActive(s.agents[k]) && p == s.Place(s.agents[k]);
      RowsAreActiveAgents(s, Joined(s.agents[k], s.tokens, s.users));
    }
    forall row | row in s.Rows()
      ensures TokenOf(row) in ConnectionsOf(tree)
    {
      RowsAreActiveAgents(s, row);
      var k :| 0 <= k < |s.agents| && s.IsActive(s.agents[k]) && row == Joined(s.agents[k], s.tokens, s.users);
      assert s.Place(s.agents[k]) in multiset(tree);
    }
  }

  // ----- Blockers -----

  datatype BlockedAgent = BlockedAgent(
    report: nat, developer: string, connection: string, agent: string, client: string, reason: string, files: seq<FileName>,
    status: Presence)

  function Reason(report: Report): string {
    if report.blockerReason.Some? then report.blockerReason.value else "Blocker flagged without details"
  }

  function BlockedIn(developer: Developer, connection: Connection, agents: seq<AgentSummary>): seq<BlockedAgent> {
    if agents == [] then []
    else
      var agent := agents[|agents| - 1];
      BlockedIn(developer, connection, agents[..|agents| - 1])
      + if Blocking(agent.latest) then
          var report := agent.latest.value;
          [BlockedAgent(report.id, developer.displayName, connection.name, agent.name, agent.client, Reason(report), report.files,
                        agent.status)]
        else []
  }

  function BlockedInConnections(developer: Developer, connections: seq<Connection>): seq<BlockedAgent> {
    if connections == [] then []
    else BlockedIn(developer, connections[0], connections[0].agents) + BlockedInConnections(developer, connections[1..])
  }

  function BlockedInTree(developers: seq<Developer>): seq<BlockedAgent> {
    if developers == [] then []
    else BlockedInConnections(developers[0], developers[0].connections) + BlockedInTree(developers[1..])
  }

  /** The innermost loop of the radar. */
  method CollectFromAgents(developer: Developer, connection: Connection) returns (found: seq<BlockedAgent>)
    ensures found == BlockedIn(developer, connection, connection.agents)
  {
    found := [];
    for a := 0 to |connection.agents|
      invariant found == BlockedIn(developer, connection, connection.agents[..a])
    {
      var agent := connection.agents[a];
      assert connection.agents[..a + 1][..a] == connection.agents[..a];
      if agent.latest.Some? && agent.latest.value.state == Blocked && agent.latest.value.resolvedAt.None? {
        var report := agent.latest.value;
        var reason := if report.blockerReason.Some? then report.blockerReason.value else "Blocker flagged without details";
        found := found + [BlockedAgent(
          report.id, developer.displayName, connection.name, agent.name, agent.client, reason, report.files, agent.status)];
      }
    }
    assert connection.agents[..|connection.agents|] == connection.agents;
  }

  /** The loop over the connections of a developer. */
  method CollectFromConnections(developer: Developer) returns (found: seq<BlockedAgent>)
    ensures found == BlockedInConnections(developer, developer.connections)
  {
    found := [];
    for c := 0 to |developer.connections|
      invariant found + BlockedInConnections(developer, developer.connections[c..])
             == BlockedInConnections(developer, developer.connections)
    {
      var connection := developer.connections[c];
      ghost var before := found;
      var more := CollectFromAgents(developer, connection);
      found := found + more;
      assert developer.connections[c..][1..] == developer.connections[c + 1..];
      Associate(before, more, BlockedInConnections(developer, developer.connections[c + 1..]));
    }
  }

  /** The radar's walk over a pulse. */
  method CollectBlockers(developers: seq<Developer>) returns (blocked: seq<BlockedAgent>)
    ensures blocked == BlockedInTree(developers)
  {
    blocked := [];
    for d := 0 to |developers|
      invariant blocked + BlockedInTree(developers[d..]) == BlockedInTree(developers)
    {
      ghost var before := blocked;
      var found := CollectFromConnections(developers[d]);
      blocked := blocked + found;
      assert developers[d..][1..] == developers[d + 1..];
      Associate(before, found, BlockedInTree(developers[d + 1..]));
    }
  }

  // A developer or connection only lends its name to what is shown.

  lemma {:induction false} BlockedCountIgnoresPlace(
    d: Developer, e: Developer, c: Connection, f: Connection, agents: seq<AgentSummary>)
    ensures |BlockedIn(d, c, agents)| == |BlockedIn(e, f, agents)|
  {
    if agents != [] {
      BlockedCountIgnoresPlace(d, e, c, f, agents[..|agents| - 1]);
    }
  }

  lemma {:induction false} BlockedCountIgnoresDeveloper(d: Developer, e: Developer, connections: seq<Connection>)
    ensures |BlockedInConnections(d, connections)| == |BlockedInConnections(e, connections)|
  {
    if connections != [] {
      BlockedCountIgnoresPlace(d, e, connections[0], connections[0], connections[0].agents);
      BlockedCountIgnoresDeveloper(d, e, connections[1..]);
    }
  }

  function One(summary: AgentSummary): nat {
    if Blocking(summary.latest) then 1 else 0
  }

  lemma {:induction false} AddToConnectionsBlocks(
    d: Developer, connections: seq<Connection>, row: Row, summary: AgentSummary)
    ensures |BlockedInConnections(d, AddToConnections(connections, row, summary))| == |BlockedInConnections(d, connections)| + One(summary)
  {
    var after := AddToConnections(connections, row, summary);
    if connections == [] {
      assert after[1..] == [] && after[0].agents[..|after[0].agents| - 1] == [];
      assert |BlockedIn(d, after[0], after[0].agents)| == One(summary);
    } else if connections[0].id == TokenOf(row) {
      assert after[1..] == connections[1..];
      assert after[0].agents[..|connections[0].agents|] == connections[0].agents;
      BlockedCountIgnoresPlace(d, d, connections[0], after[0], connections[0].agents);
    } else {
      assert after[1..] == AddToConnections(connections[1..], row, summary);
      AddToConnectionsBlocks(d, connections[1..], row, summary);
    }
  }

  lemma {:induction false} AddToTreeBlocks(developers: seq<Developer>, row: Row, summary: AgentSummary)
    ensures |BlockedInTree(AddToTree(developers, row, summary))| == |BlockedInTree(developers)| + One(summary)
  {
    var after := AddToTree(developers, row, summary);
    if developers == [] {
      assert after[1..] == [];
      AddToConnectionsBlocks(after[0], [], row, summary);
    } else if developers[0].user == UserOf(row) {
      assert after[1..] == developers[1..];
      AddToConnectionsBlocks(after[0], developers[0].connections, row, summary);
      BlockedCountIgnoresDeveloper(after[0], developers[0], developers[0].connections);
    } else {
      assert after[1..] == AddToTree(developers[1..], row, summary);
      AddToTreeBlocks(developers[1..], row, summary);
    }
  }

  /** The number of active blockers is the number of entries that the radar collects from the tree. */
  lemma {:induction false} BlockersAreWhatTheRadarCollects(reports: seq<Report>, rows: seq<Row>, now: int)
    ensures Blockers(reports, rows) == |BlockedInTree(Tree(reports, rows, now))|
  {
    if rows != [] {
      var n := |rows| - 1;
      BlockersAreWhatTheRadarCollects(reports, rows[..n], now);
      AddToTreeBlocks(Tree(reports, rows[..n], now), rows[n], Summary(reports, rows[n].agent, now));
    }
  }
}
