/** The daily pulse: the agents that were active on a day, grouped by developer and connection, with counters. */
module Pulse {
  import opened Wrappers
  import EscapeNormalizer

  type AgentId = nat
  type TokenId = nat
  type UserId = nat

  /** File names are compared by UTF-16 code units. */
  type FileName = seq<EscapeNormalizer.CodeUnit>

  datatype ProgressState = InProgress | Blocked | Completed | Idle

  datatype Report = Report(
    id: nat, agent: AgentId, summary: string, goal: Option<string>, files: seq<FileName>, state: ProgressState,
    blockerReason: Option<string>, resolvedAt: Option<int>, createdAt: int)

  datatype Agent = Agent(id: AgentId, name: string, client: string, lastSeenAt: int, registeredVia: Option<TokenId>)

  datatype Token = Token(name: string, createdBy: Option<UserId>)

  datatype User = User(displayName: string)

  /** A row of the query: an agent with its token and that token's user, where they exist. */
  datatype Row = Row(agent: Agent, token: Option<(TokenId, Token)>, user: Option<(UserId, User)>)

  datatype Presence = Online | IdleNow | Offline

  datatype AgentSummary = AgentSummary(
    agent: AgentId, name: string, client: string, status: Presence, lastSeenAt: int, latest: Option<Report>, history: seq<Report>)

  datatype Connection = Connection(id: Option<TokenId>, name: string, agents: seq<AgentSummary>)

  datatype Developer = Developer(user: Option<UserId>, displayName: string, connections: seq<Connection>)

  datatype DailyPulse = DailyPulse(
    activeAgents: nat, totalSessions: nat, activeBlockers: nat, uniqueFiles: seq<FileName>, developers: seq<Developer>)

  // ----- The query -----

  /** A left join: a token without a matching row, or a user without one, comes out empty. */
  function Joined(agent: Agent, tokens: map<TokenId, Token>, users: map<UserId, User>): Row {
    var token :=
      if agent.registeredVia.Some? && agent.registeredVia.value in tokens
      then Some((agent.registeredVia.value, tokens[agent.registeredVia.value])) else None;
    var user :=
      if token.Some? && token.value.1.createdBy.Some? && token.value.1.createdBy.value in users
      then Some((token.value.1.createdBy.value, users[token.value.1.createdBy.value])) else None;
    Row(agent, token, user)
  }

  function JoinedAll(agents: seq<Agent>, tokens: map<TokenId, Token>, users: map<UserId, User>): seq<Row> {
    if agents == [] then [] else JoinedAll(agents[..|agents| - 1], tokens, users) + [Joined(agents[|agents| - 1], tokens, users)]
  }

  // ----- What belongs to an agent -----

  function DerivePresence(lastSeenAt: int, now: int): Presence {
    if now - lastSeenAt <= 5 * 60 * 1_000 then Online else if now - lastSeenAt <= 30 * 60 * 1_000 then IdleNow else Offline
  }

  function ReportsOf(reports: seq<Report>, agent: AgentId): seq<Report> {
    if reports == [] then []
    else ReportsOf(reports[..|reports| - 1], agent) + if reports[|reports| - 1].agent == agent then [reports[|reports| - 1]] else []
  }

  predicate ActiveOn(reports: seq<Report>, agent: Agent, startOfDay: int, endOfDay: int) {
    ReportsOf(reports, agent.id) != [] || startOfDay <= agent.lastSeenAt <= endOfDay
  }

  function Active(reports: seq<Report>, rows: seq<Row>, startOfDay: int, endOfDay: int): seq<Row> {
    if rows == [] then []
    else
      Active(reports, rows[..|rows| - 1], startOfDay, endOfDay)
      + if ActiveOn(reports, rows[|rows| - 1].agent, startOfDay, endOfDay) then [rows[|rows| - 1]] else []
  }

  function Latest(reports: seq<Report>): Option<Report> {
    if reports == [] then None else Some(reports[|reports| - 1])
  }

  function Summary(reports: seq<Report>, agent: Agent, now: int): AgentSummary {
    var own := ReportsOf(reports, agent.id);
    AgentSummary(agent.id, agent.name, agent.client, DerivePresence(agent.lastSeenAt, now), agent.lastSeenAt, Latest(own), own)
  }

  /** A report that is blocked and unresolved. */
  predicate Blocking(latest: Option<Report>) {
    latest.Some? && latest.value.state == Blocked && latest.value.resolvedAt.None?
  }

  // ----- The tree -----

  function UserOf(row: Row): Option<UserId> {
    if row.user.Some? then Some(row.user.value.0) else None
  }

  function TokenOf(row: Row): Option<TokenId> {
    if row.token.Some? then Some(row.token.value.0) else None
  }

  function DeveloperName(row: Row): string {
    if row.user.Some? then row.user.value.1.displayName
    else if row.token.Some? && row.token.value.1.name != "" then "Device: " + row.token.value.1.name
    else "CLI Agent"
  }

  function ConnectionName(row: Row): string {
    if row.token.Some? then row.token.value.1.name else "Direct CLI"
  }

  /** Where a row belongs, and what is shown there. */
  datatype Placement = Placement(user: Option<UserId>, connection: Option<TokenId>, agent: AgentSummary)

  function Placed(reports: seq<Report>, row: Row, now: int): Placement {
    Placement(UserOf(row), TokenOf(row), Summary(reports, row.agent, now))
  }

  function PlacedAll(reports: seq<Report>, rows: seq<Row>, now: int): (all: seq<Placement>)
    ensures |all| == |rows|
    ensures forall k :: 0 <= k < |rows| ==> all[k] == Placed(reports, rows[k], now)
  {
    seq(|rows|, k requires 0 <= k < |rows| => Placed(reports, rows[k], now))
  }

  function InConnection(user: Option<UserId>, connection: Connection): (all: seq<Placement>)
    ensures |all| == |connection.agents|
    ensures forall k :: 0 <= k < |all| ==> all[k] == Placement(user, connection.id, connection.agents[k])
  {
    seq(|connection.agents|, k requires 0 <= k < |connection.agents| => Placement(user, connection.id, connection.agents[k]))
  }

  function InConnections(user: Option<UserId>, connections: seq<Connection>): seq<Placement> {
    if connections == [] then [] else InConnection(user, connections[0]) + InConnections(user, connections[1..])
  }

  /** Everything that hangs in the tree, with its place. */
  function InTree(developers: seq<Developer>): seq<Placement> {
    if developers == [] then []
    else InConnections(developers[0].user, developers[0].connections) + InTree(developers[1..])
  }

  // ----- Specification of the tree -----

  function AddToConnections(connections: seq<Connection>, row: Row, summary: AgentSummary): seq<Connection> {
    if connections == [] then [Connection(TokenOf(row), ConnectionName(row), [summary])]
    else if connections[0].id == TokenOf(row) then [connections[0].(agents := connections[0].agents + [summary])] + connections[1..]
    else [connections[0]] + AddToConnections(connections[1..], row, summary)
  }

  function AddToTree(developers: seq<Developer>, row: Row, summary: AgentSummary): seq<Developer> {
    if developers == [] then [Developer(UserOf(row), DeveloperName(row), AddToConnections([], row, summary))]
    else if developers[0].user == UserOf(row)
    then [developers[0].(connections := AddToConnections(developers[0].connections, row, summary))] + developers[1..]
    else [developers[0]] + AddToTree(developers[1..], row, summary)
  }

  function Tree(reports: seq<Report>, rows: seq<Row>, now: int): seq<Developer> {
    if rows == [] then []
    else
      var row := rows[|rows| - 1];
      AddToTree(Tree(reports, rows[..|rows| - 1], now), row, Summary(reports, row.agent, now))
  }

  function Blockers(reports: seq<Report>, rows: seq<Row>): nat {
    if rows == [] then 0
    else
      Blockers(reports, rows[..|rows| - 1])
      + if Blocking(Latest(ReportsOf(reports, rows[|rows| - 1].agent.id))) then 1 else 0
  }

  function Sessions(developers: seq<Developer>): nat {
    if developers == [] then 0 else |developers[0].connections| + Sessions(developers[1..])
  }

  // ----- Looking up -----

  /** The first match, or the end of the list. */
  function IndexOf<T(!new)>(rows: seq<T>, matches: T -> bool): (i: nat)
    ensures i <= |rows| && (i < |rows| ==> matches(rows[i]))
    ensures forall k :: 0 <= k < i ==> !matches(rows[k])
  {
    if rows == [] || matches(rows[0]) then 0 else 1 + IndexOf(rows[1..], matches)
  }

  function IsOf(user: Option<UserId>): Developer -> bool {
    (developer: Developer) => developer.user == user
  }

  function IsThrough(id: Option<TokenId>): Connection -> bool {
    (connection: Connection) => connection.id == id
  }

  lemma {:induction false} AddToConnectionsAt(connections: seq<Connection>, row: Row, summary: AgentSummary)
    ensures
      var c := IndexOf(connections, IsThrough(TokenOf(row)));
      var found := if c < |connections| then connections else connections + [Connection(TokenOf(row), ConnectionName(row), [])];
      AddToConnections(connections, row, summary) == found[c := found[c].(agents := found[c].agents + [summary])]
  {
    if connections == [] {
      assert [] + [summary] == [summary];
    } else if connections[0].id != TokenOf(row) {
      AddToConnectionsAt(connections[1..], row, summary);
    }
  }

  lemma AddToHead(developers: seq<Developer>, row: Row, summary: AgentSummary)
    requires developers != [] && developers[0].user == UserOf(row)
    ensures
      AddToTree(developers, row, summary) ==
      developers[0 := developers[0].(connections := AddToConnections(developers[0].connections, row, summary))]
  {
  }

  lemma {:induction false} AddToTreeAt(developers: seq<Developer>, row: Row, summary: AgentSummary)
    ensures
      var d := IndexOf(developers, IsOf(UserOf(row)));
      var found := if d < |developers| then developers else developers + [Developer(UserOf(row), DeveloperName(row), [])];
      AddToTree(developers, row, summary) ==
      found[d := found[d].(connections := AddToConnections(found[d].connections, row, summary))]
  {
    if developers == [] {
      assert IndexOf(developers, IsOf(UserOf(row))) == 0;
    } else if developers[0].user == UserOf(row) {
      assert IndexOf(developers, IsOf(UserOf(row))) == 0;
      AddToHead(developers, row, summary);
    } else {
      AddToTreeAt(developers[1..], row, summary);
    }
  }

  // ----- The loops of the service -----

  /** Each agent with reports has its own, in their order. */
  ghost predicate Groups(byAgent: map<AgentId, seq<Report>>, reports: seq<Report>) {
    && (forall a :: a in byAgent <==> ReportsOf(reports, a) != [])
    && (forall a :: a in byAgent ==> byAgent[a] == ReportsOf(reports, a))
  }

  lemma GroupsOneMore(byAgent: map<AgentId, seq<Report>>, reports: seq<Report>, i: nat, list: seq<Report>)
    requires i < |reports| && Groups(byAgent, reports[..i])
    requires list == if reports[i].agent in byAgent then byAgent[reports[i].agent] else []
    ensures Groups(byAgent[reports[i].agent := list + [reports[i]]], reports[..i + 1])
  {
    assert reports[..i + 1][..i] == reports[..i];
    forall a: AgentId
      ensures
        ReportsOf(reports[..i + 1], a) == ReportsOf(reports[..i], a) + if reports[i].agent == a then [reports[i]] else []
    {
    }
  }

  method GroupReports(reports: seq<Report>) returns (byAgent: map<AgentId, seq<Report>>, touched: set<FileName>)
    ensures Groups(byAgent, reports)
    ensures forall f :: f in touched <==> exists k :: 0 <= k < |reports| && f in reports[k].files
  {
    byAgent, touched := map[], {};
    for i := 0 to |reports|
      invariant Groups(byAgent, reports[..i])
      invariant forall f :: f in touched <==> exists k :: 0 <= k < i && f in reports[k].files
    {
      var report := reports[i];
      var list := if report.agent in byAgent then byAgent[report.agent] else [];
      GroupsOneMore(byAgent, reports, i, list);
      byAgent := byAgent[report.agent := list + [report]];
      touched := TouchFiles(touched, report.files);
    }
    assert reports[..|reports|] == reports;
  }

  method TouchFiles(touched: set<FileName>, files: seq<FileName>) returns (after: set<FileName>)
    ensures forall f :: f in after <==> f in touched || f in files
  {
    after := touched;
    for j := 0 to |files|
      invariant forall f :: f in after <==> f in touched || f in files[..j]
    {
      after := after + {files[j]};
    }
  }

  method FilterActive(
    byAgent: map<AgentId, seq<Report>>, reports: seq<Report>, rows: seq<Row>, startOfDay: int, endOfDay: int)
    returns (active: seq<Row>)
    requires Groups(byAgent, reports)
    ensures active == Active(reports, rows, startOfDay, endOfDay)
  {
    active := [];
    for i := 0 to |rows|
      invariant active == Active(reports, rows[..i], startOfDay, endOfDay)
    {
      assert rows[..i + 1][..i] == rows[..i];
      var agent := rows[i].agent;
      if agent.id in byAgent || (startOfDay <= agent.lastSeenAt && agent.lastSeenAt <= endOfDay) {
        active := active + [rows[i]];
      }
    }
    assert rows[..|rows|] == rows;
  }

  method BuildTree(byAgent: map<AgentId, seq<Report>>, ghost reports: seq<Report>, active: seq<Row>, now: int)
    returns (developers: seq<Developer>, activeBlockers: nat)
    requires Groups(byAgent, reports)
    ensures developers == Tree(reports, active, now) && activeBlockers == Blockers(reports, active)
  {
    developers, activeBlockers := [], 0;
    for i := 0 to |active|
      invariant developers == Tree(reports, active[..i], now) && activeBlockers == Blockers(reports, active[..i])
    {
      assert active[..i + 1][..i] == active[..i];
      var row := active[i];
      var own := if row.agent.id in byAgent then byAgent[row.agent.id] else [];
      assert own == ReportsOf(reports, row.agent.id);
      var latest := if |own| > 0 then Some(own[|own| - 1]) else None;
      if latest.Some? && latest.value.state == Blocked && latest.value.resolvedAt.None? {
        activeBlockers := activeBlockers + 1;
      }
      var summary := AgentSummary(
        row.agent.id, row.agent.name, row.agent.client, DerivePresence(row.agent.lastSeenAt, now), row.agent.lastSeenAt, latest, own);
      developers := PlaceAgent(developers, row, summary);
    }
    assert active[..|active|] == active;
  }

  method PlaceAgent(before: seq<Developer>, row: Row, summary: AgentSummary) returns (developers: seq<Developer>)
    ensures developers == AddToTree(before, row, summary)
  {
    developers := before;
    AddToTreeAt(developers, row, summary);
    var d := IndexOf(developers, IsOf(UserOf(row)));
    if d == |developers| {
      var displayName := "CLI Agent";
      if row.user.Some? {
        displayName := row.user.value.1.displayName;
      } else if row.token.Some? && row.token.value.1.name != "" {
        displayName := "Device: " + row.token.value.1.name;
      }
      developers := developers + [Developer(UserOf(row), displayName, [])];
    }
    var connections := developers[d].connections;
    AddToConnectionsAt(connections, row, summary);
    var c := IndexOf(connections, IsThrough(TokenOf(row)));
    if c == |connections| {
      var name := "Direct CLI";
      if row.token.Some? {
        name := row.token.value.1.name;
      }
      connections := connections + [Connection(TokenOf(row), name, [])];
    }
    connections := connections[c := connections[c].(agents := connections[c].agents + [summary])];
    developers := developers[d := developers[d].(connections := connections)];
  }

  method CountSessions(developers: seq<Developer>) returns (sum: nat)
    ensures sum == Sessions(developers)
  {
    sum := 0;
    for i := 0 to |developers|
      invariant sum + Sessions(developers[i..]) == Sessions(developers)
    {
      sum := sum + |developers[i].connections|;
    }
  }

  // ----- Sorting, as the library does -----

  predicate Before(a: FileName, b: FileName)
    decreases |a|
  {
    b != [] && (a == [] || a[0] < b[0] || (a[0] == b[0] && Before(a[1..], b[1..])))
  }

  predicate StrictlyAscending(files: seq<FileName>) {
    forall i, j :: 0 <= i < j < |files| ==> Before(files[i], files[j])
  }

  lemma {:induction false} BeforeIsTransitive(a: FileName, b: FileName, c: FileName)
    requires Before(a, b) && Before(b, c)
    ensures Before(a, c)
    decreases |a|
  {
    if a != [] && a[0] == b[0] && b[0] == c[0] {
      BeforeIsTransitive(a[1..], b[1..], c[1..]);
    }
  }

  lemma {:induction false} BeforeIsTotal(a: FileName, b: FileName)
    ensures a == b || Before(a, b) || Before(b, a)
    ensures !(Before(a, b) && Before(b, a)) && !Before(a, a)
    decreases |a|
  {
    if a != [] && b != [] {
      BeforeIsTotal(a[1..], b[1..]);
      if a[0] == b[0] && a[1..] == b[1..] {
        assert a == [a[0]] + a[1..] && b == [b[0]] + b[1..];
      }
    }
    if a != [] {
      BeforeIsTotal(a[1..], a[1..]);
    }
  }

  function Inserted(file: FileName, sorted: seq<FileName>): seq<FileName> {
    if sorted == [] || Before(file, sorted[0]) then [file] + sorted else [sorted[0]] + Inserted(file, sorted[1..])
  }

  lemma {:induction false} InsertedIsAscending(file: FileName, sorted: seq<FileName>)
    requires StrictlyAscending(sorted) && file !in sorted
    ensures StrictlyAscending(Inserted(file, sorted))
    ensures forall f :: f in Inserted(file, sorted) <==> f == file || f in sorted
  {
    if sorted != [] {
      BeforeIsTotal(file, sorted[0]);
      if Before(file, sorted[0]) {
        forall j | 0 <= j < |sorted|
          ensures Before(file, sorted[j])
        {
          if j > 0 {
            BeforeIsTransitive(file, sorted[0], sorted[j]);
          }
        }
      } else {
        InsertedIsAscending(file, sorted[1..]);
        var rest := Inserted(file, sorted[1..]);
        forall j | 0 <= j < |rest|
          ensures Before(sorted[0], rest[j])
        {
          if rest[j] != file {
            assert rest[j] in sorted[1..];
          }
        }
        assert forall f :: f in sorted <==> f == sorted[0] || f in sorted[1..];
      }
    }
  }

  method ToSorted(files: set<FileName>) returns (sorted: seq<FileName>)
    ensures StrictlyAscending(sorted) && forall f :: f in sorted <==> f in files
  {
    sorted := [];
    var rest := files;
    while rest != {}
      invariant rest <= files && StrictlyAscending(sorted)
      invariant forall f :: f in sorted <==> f in files && f !in rest
      decreases |rest|
    {
      var file :| file in rest;
      InsertedIsAscending(file, sorted);
      sorted := Inserted(file, sorted);
      rest := rest - {file};
    }
  }

  /** The pulse of one day. `reports` are the project's reports of the day in the order of their creation. */
  method GetDailyPulse(
    reports: seq<Report>, agents: seq<Agent>, tokens: map<TokenId, Token>, users: map<UserId, User>,
    startOfDay: int, endOfDay: int, now: int)
    returns (pulse: DailyPulse)
    ensures
      var active := Active(reports, JoinedAll(agents, tokens, users), startOfDay, endOfDay);
      && pulse.developers == Tree(reports, active, now)
      && pulse.activeAgents == |active|
      && pulse.totalSessions == Sessions(pulse.developers)
      && pulse.activeBlockers == Blockers(reports, active)
    ensures StrictlyAscending(pulse.uniqueFiles)
    ensures forall f :: f in pulse.uniqueFiles <==> exists k :: 0 <= k < |reports| && f in reports[k].files
  {
    var rows := JoinedAll(agents, tokens, users);
    var byAgent, touched := GroupReports(reports);
    var active := FilterActive(byAgent, reports, rows, startOfDay, endOfDay);
    var developers, activeBlockers := BuildTree(byAgent, reports, active, now);
    var uniqueFiles := ToSorted(touched);
    var totalSessions := CountSessions(developers);
    pulse := DailyPulse(|active|, totalSessions, activeBlockers, uniqueFiles, developers);
  }
}
