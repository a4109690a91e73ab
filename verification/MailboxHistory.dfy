/** What holds over whole runs of the mailbox: a retried send is invisible, and the journal accounts for every message
    and every acknowledgement. */
module MailboxHistory {
  import opened Wrappers
  import opened Mailbox

  function Run(s: State, rs: seq<Request>): State
    decreases |rs|
  {
    if rs == [] then s else Run(After(s, rs[0]), rs[1..])
  }

  function Replies(s: State, rs: seq<Request>): seq<Reply>
    decreases |rs|
  {
    if rs == [] then [] else [ReplyTo(s, rs[0])] + Replies(After(s, rs[0]), rs[1..])
  }

  const EMPTY := State([], [], [])

  // ----- Queries over tables that grow and change in place -----

  lemma {:induction false} FirstOfAppended<T(!new)>(rows: seq<T>, row: T, p: T -> bool)
    ensures First(rows + [row], p) == if First(rows, p).Some? then First(rows, p) else if p(row) then Some(row) else None
  {
    if rows != [] {
      assert (rows + [row])[1..] == rows[1..] + [row];
      FirstOfAppended(rows[1..], row, p);
    }
  }

  /** The first match stays at its place when no row changes whether it matches. */
  lemma {:induction false} FirstOfChanged<T(!new)>(rows: seq<T>, changed: seq<T>, p: T -> bool)
    requires |rows| == |changed| && forall k :: 0 <= k < |rows| ==> (p(rows[k]) <==> p(changed[k]))
    ensures
      if First(rows, p).None? then First(changed, p).None?
      else exists k :: 0 <= k < |rows| && First(rows, p) == Some(rows[k]) && First(changed, p) == Some(changed[k])
  {
    if rows != [] {
      if !p(rows[0]) {
        FirstOfChanged(rows[1..], changed[1..], p);
        if First(rows, p).Some? {
          var k :| 0 <= k < |rows| - 1 && First(rows[1..], p) == Some(rows[1..][k]) && First(changed[1..], p) == Some(changed[1..][k]);
          assert rows[1..][k] == rows[k + 1] && changed[1..][k] == changed[k + 1];
        }
      }
    }
  }

  lemma {:induction false} WhereHolds<T>(rows: seq<T>, p: T -> bool, row: T)
    ensures row in Where(rows, p) <==> row in rows && p(row)
  {
    if rows != [] {
      WhereHolds(rows[..|rows| - 1], p, row);
      assert row in rows <==> row in rows[..|rows| - 1] || row == rows[|rows| - 1];
    }
  }

  lemma WhereOfAppended<T>(rows: seq<T>, row: T, p: T -> bool)
    ensures Where(rows + [row], p) == Where(rows, p) + if p(row) then [row] else []
  {
    assert (rows + [row])[..|rows|] == rows;
  }

  // ----- Retried sends are invisible -----

  /** The same agents and messages; only the journals may differ. */
  predicate SameMailbox(s: State, s': State) {
    s.agents == s'.agents && s.messages == s'.messages
  }

  lemma {:induction false} RunsAgree(s: State, s': State, rs: seq<Request>)
    requires SameMailbox(s, s')
    ensures SameMailbox(Run(s, rs), Run(s', rs)) && Replies(s, rs) == Replies(s', rs)
    decreases |rs|
  {
    if rs != [] {
      RunsAgree(After(s, rs[0]), After(s', rs[0]), rs[1..]);
    }
  }

  /** The same message by the same sender to the same agent under the same key. */
  predicate Repeats(r: Request, q: Request) {
    r.Send? && q.Send? && q.project == r.project && q.token == r.token && q.to == r.to && q.text == r.text && q.key == r.key
  }

  /** A request after this one that repeats it finds the message of the reply. */
  predicate Remembers(s: State, r: Request, m: PublicMessage) {
    r.Send? && Judge(s, r).Repeated? && Public(Judge(s, r).message) == m
  }

  lemma AgentsAreKept(s: State, q: Request, project: ProjectId, id: AgentId)
    ensures
      var before, after := First(s.agents, AgentIs(project, id)), First(After(s, q).agents, AgentIs(project, id));
      before.Some? ==> after.Some? && after.value == before.value.(lastSeenAt := after.value.lastSeenAt)
  {
    var agents := After(s, q).agents;
    if |agents| == |s.agents| {
      FirstOfChanged(s.agents, agents, AgentIs(project, id));
    } else {
      FirstOfAppended(s.agents, NewAgent(q), AgentIs(project, id));
    }
  }

  lemma MessagesAreKept(s: State, q: Request, project: ProjectId, sender: AgentId, key: nat)
    ensures
      var before, after := First(s.messages, KeyedBy(project, sender, key)), First(After(s, q).messages, KeyedBy(project, sender, key));
      before.Some? ==> after.Some? && Public(after.value) == Public(before.value)
  {
    var messages := After(s, q).messages;
    if |messages| == |s.messages| {
      FirstOfChanged(s.messages, messages, KeyedBy(project, sender, key));
    } else {
      FirstOfAppended(s.messages, NewMessage(q, Judge(s, q).actor), KeyedBy(project, sender, key));
    }
  }

  lemma KeptIsRemembered(s: State, s': State, r: Request, m: PublicMessage)
    requires Remembers(s, r, m)
    requires
      forall id :: id in {r.token.agent, r.to} && First(s.agents, AgentIs(r.project, id)).Some? ==>
        && First(s'.agents, AgentIs(r.project, id)).Some?
        && First(s'.agents, AgentIs(r.project, id)).value ==
           First(s.agents, AgentIs(r.project, id)).value.(lastSeenAt := First(s'.agents, AgentIs(r.project, id)).value.lastSeenAt)
    requires
      var sent := KeyedBy(r.project, Judge(s, r).actor, r.key);
      First(s.messages, sent).Some? ==>
        First(s'.messages, sent).Some? && Public(First(s'.messages, sent).value) == Public(First(s.messages, sent).value)
    ensures Remembers(s', r, m)
  {
    assert r.token.agent in {r.token.agent, r.to} && r.to in {r.token.agent, r.to};
  }

  lemma StepRemembers(s: State, q: Request, r: Request, m: PublicMessage)
    requires Remembers(s, r, m)
    ensures Remembers(After(s, q), r, m)
  {
    AgentsAreKept(s, q, r.project, r.token.agent);
    AgentsAreKept(s, q, r.project, r.to);
    MessagesAreKept(s, q, r.project, Judge(s, r).actor, r.key);
    KeptIsRemembered(s, After(s, q), r, m);
  }

  lemma {:induction false} RunRemembers(s: State, rs: seq<Request>, r: Request, m: PublicMessage)
    requires Remembers(s, r, m)
    ensures Remembers(Run(s, rs), r, m)
    decreases |rs|
  {
    if rs != [] {
      StepRemembers(s, rs[0], r, m);
      RunRemembers(After(s, rs[0]), rs[1..], r, m);
    }
  }

  lemma AcceptedIsRemembered(s: State, r: Request)
    requires r.Send? && ReplyTo(s, r).Sent?
    ensures Remembers(After(s, r), r, ReplyTo(s, r).message)
  {
    if Judge(s, r).Accepted? {
      FirstOfAppended(s.messages, NewMessage(r, Judge(s, r).actor), KeyedBy(r.project, Judge(s, r).actor, r.key));
    }
  }

  /** Inserting a repeat of an accepted send at any later point of any run changes no row of any table but the journal,
      changes no later reply, and is answered with the original message. */
  lemma RetriedSendsAreInvisible(s: State, r: Request, between: seq<Request>, q: Request, later: seq<Request>)
    requires Repeats(r, q) && ReplyTo(s, r).Sent?
    ensures
      var t := Run(After(s, r), between);
      && ReplyTo(t, q) == Sent(ReplyTo(s, r).message, true)
      && SameMailbox(Run(After(t, q), later), Run(t, later))
      && Replies(After(t, q), later) == Replies(t, later)
  {
    AcceptedIsRemembered(s, r);
    RunRemembers(After(s, r), between, r, ReplyTo(s, r).message);
    var t := Run(After(s, r), between);
    assert Judge(t, q) == Judge(t, r);
    RunsAgree(After(t, q), t, later);
  }

  /** Another text or recipient under a used key is refused for ever after, and changes no row but the journal. */
  lemma ConflictingRepeatsAreRefused(s: State, r: Request, between: seq<Request>, q: Request)
    requires q.Send? && ReplyTo(s, r).Sent? && r.Send?
    requires q.project == r.project && q.token == r.token && q.key == r.key && (q.text != r.text || q.to != r.to)
    ensures
      var t := Run(After(s, r), between);
      && ReplyTo(t, q).Failed? && SameMailbox(After(t, q), t)
      && (q.to != ReplyTo(s, r).message.fromAgent && First(t.agents, AgentIs(q.project, q.to)).Some? ==>
            ReplyTo(t, q) == Failed(IdempotencyConflict))
  {
    AcceptedIsRemembered(s, r);
    RunRemembers(After(s, r), between, r, ReplyTo(s, r).message);
  }

  // ----- Consistency of the tables -----

  /** Identifiers are new, and sequence numbers are drawn in order. */
  ghost predicate Fresh(s: State, r: Request) {
    match r
    case Register(_, _, _, _, newId, _) => forall k :: 0 <= k < |s.agents| ==> s.agents[k].id != newId
    case Send(_, _, _, _, _, _, newId, newSequence, _) =>
      forall k :: 0 <= k < |s.messages| ==> s.messages[k].id != newId && s.messages[k].sequence < newSequence
    case Sync(_, _, _, _, _, _) => true
  }

  ghost predicate FreshRun(s: State, rs: seq<Request>)
    decreases |rs|
  {
    rs == [] || (Fresh(s, rs[0]) && FreshRun(After(s, rs[0]), rs[1..]))
  }

  ghost predicate AgentsOk(agents: seq<Agent>) {
    forall i, j :: 0 <= i < j < |agents| ==>
      agents[i].id != agents[j].id && !(agents[i].project == agents[j].project && agents[i].digest == agents[j].digest)
  }

  /** The unique constraints of the table, and rows in sequence order. */
  ghost predicate MessagesOk(messages: seq<Message>) {
    forall i, j :: 0 <= i < j < |messages| ==>
      && messages[i].sequence < messages[j].sequence
      && messages[i].id != messages[j].id
      && !KeyedBy(messages[i].project, messages[i].sender, messages[i].key)(messages[j])
  }

  /** Sender and recipient are different agents of the message's project. */
  ghost predicate EndsOk(agents: seq<Agent>, m: Message) {
    && m.sender != m.recipient
    && First(agents, AgentIs(m.project, m.sender)).Some?
    && First(agents, AgentIs(m.project, m.recipient)).Some?
  }

  ghost predicate TablesOk(s: State) {
    AgentsOk(s.agents) && MessagesOk(s.messages) && forall k :: 0 <= k < |s.messages| ==> EndsOk(s.agents, s.messages[k])
  }

  lemma StepKeepsAgents(s: State, r: Request)
    requires AgentsOk(s.agents) && Fresh(s, r)
    ensures AgentsOk(After(s, r).agents)
  {
    var agents := After(s, r).agents;
    if |agents| > |s.agents| {
      forall k | 0 <= k < |s.agents|
        ensures !RegisteredAs(r.project, r.digest)(s.agents[k])
      {
        assert s.agents[k] in s.agents;
      }
    }
  }

  /** A message added under a new key keeps the unique constraints. */
  lemma AppendKeepsMessages(messages: seq<Message>, m: Message)
    requires MessagesOk(messages) && First(messages, KeyedBy(m.project, m.sender, m.key)).None?
    requires forall k :: 0 <= k < |messages| ==> messages[k].id != m.id && messages[k].sequence < m.sequence
    ensures MessagesOk(messages + [m])
  {
    forall k | 0 <= k < |messages|
      ensures !KeyedBy(messages[k].project, messages[k].sender, messages[k].key)(m)
    {
      assert messages[k] in messages;
    }
  }

  lemma AcknowledgingKeepsMessages(messages: seq<Message>, after: seq<Message>)
    requires MessagesOk(messages) && |after| == |messages|
    requires forall k :: 0 <= k < |messages| ==> after[k] == messages[k].(acknowledgedAt := after[k].acknowledgedAt)
    ensures MessagesOk(after)
  {
    forall i, j | 0 <= i < j < |after|
      ensures && after[i].sequence < after[j].sequence && after[i].id != after[j].id
              && !KeyedBy(after[i].project, after[i].sender, after[i].key)(after[j])
    {
      assert !KeyedBy(messages[i].project, messages[i].sender, messages[i].key)(messages[j]);
    }
  }

  lemma StepKeepsMessages(s: State, r: Request)
    requires MessagesOk(s.messages) && Fresh(s, r)
    ensures MessagesOk(After(s, r).messages)
  {
    if r.Send? && Judge(s, r).Accepted? {
      AppendKeepsMessages(s.messages, NewMessage(r, Judge(s, r).actor));
    } else {
      AcknowledgingKeepsMessages(s.messages, After(s, r).messages);
    }
  }

  lemma EndsAreKept(s: State, r: Request, m: Message)
    requires EndsOk(s.agents, m)
    ensures EndsOk(After(s, r).agents, m)
  {
    AgentsAreKept(s, r, m.project, m.sender);
    AgentsAreKept(s, r, m.project, m.recipient);
  }

  lemma StepKeepsEnds(s: State, r: Request, k: nat)
    requires k < |After(s, r).messages| && (k < |s.messages| ==> EndsOk(s.agents, s.messages[k]))
    ensures EndsOk(After(s, r).agents, After(s, r).messages[k])
  {
    if k < |s.messages| {
      EndsAreKept(s, r, s.messages[k]);
    } else {
      NewMessageHasEnds(s, r);
      EndsAreKept(s, r, After(s, r).messages[k]);
    }
  }

  lemma NewMessageHasEnds(s: State, r: Request)
    requires r.Send? && Judge(s, r).Accepted?
    ensures EndsOk(s.agents, NewMessage(r, Judge(s, r).actor))
  {
  }

  lemma StepKeepsTables(s: State, r: Request)
    requires TablesOk(s) && Fresh(s, r)
    ensures TablesOk(After(s, r))
  {
    StepKeepsAgents(s, r);
    StepKeepsMessages(s, r);
    forall k | 0 <= k < |After(s, r).messages|
      ensures EndsOk(After(s, r).agents, After(s, r).messages[k])
    {
      StepKeepsEnds(s, r, k);
    }
  }

  // ----- Registration is idempotent -----

  lemma RegistrationsAreKept(s: State, q: Request, project: ProjectId, digest: nat)
    ensures
      var before, after := First(s.agents, RegisteredAs(project, digest)), First(After(s, q).agents, RegisteredAs(project, digest));
      before.Some? ==> after.Some? && after.value == before.value.(lastSeenAt := after.value.lastSeenAt)
  {
    var agents := After(s, q).agents;
    if |agents| == |s.agents| {
      FirstOfChanged(s.agents, agents, RegisteredAs(project, digest));
    } else {
      FirstOfAppended(s.agents, NewAgent(q), RegisteredAs(project, digest));
    }
  }

  lemma {:induction false} RunKeepsRegistrations(s: State, rs: seq<Request>, project: ProjectId, digest: nat)
    requires AgentsOk(s.agents) && FreshRun(s, rs)
    ensures AgentsOk(Run(s, rs).agents)
    ensures
      var before, after := First(s.agents, RegisteredAs(project, digest)), First(Run(s, rs).agents, RegisteredAs(project, digest));
      before.Some? ==> after.Some? && after.value == before.value.(lastSeenAt := after.value.lastSeenAt)
    decreases |rs|
  {
    if rs != [] {
      StepKeepsAgents(s, rs[0]);
      RegistrationsAreKept(s, rs[0], project, digest);
      RunKeepsRegistrations(After(s, rs[0]), rs[1..], project, digest);
    }
  }

  lemma RegisteredCanAuthenticate(agents: seq<Agent>, row: Agent)
    requires AgentsOk(agents) && First(agents, RegisteredAs(row.project, row.digest)) == Some(row)
    ensures Authenticate(agents, row.project, Signed(row.project, row.id, row.digest)) == Some(row.id)
  {
    var found := First(agents, AgentIs(row.project, row.id));
    var i :| 0 <= i < |agents| && agents[i] == row;
    assert AgentIs(row.project, row.id)(row);
    var j :| 0 <= j < |agents| && agents[j] == found.value;
  }

  /** The token of a registration stays good for the same agent in every later state; repeating the registration
      returns that token and adds no agent, and another profile for the same session is refused. */
  lemma RegistrationIsIdempotent(s: State, r: Request, between: seq<Request>, q: Request)
    requires AgentsOk(s.agents) && r.Register? && Fresh(s, r) && FreshRun(After(s, r), between) && ReplyTo(s, r).Registered?
    requires q.Register? && q.project == r.project && q.digest == r.digest
    ensures
      var t, first := Run(After(s, r), between), ReplyTo(s, r);
      && Authenticate(t.agents, r.project, first.token) == Some(first.agent.id)
      && (q.profile == r.profile ==>
            && ReplyTo(t, q) == Registered(first.agent.(lastSeenAt := q.now), first.token)
            && |After(t, q).agents| == |t.agents|)
      && (q.profile != r.profile ==> ReplyTo(t, q) == Failed(RegistrationConflict) && After(t, q).agents == t.agents)
  {
    var s1 := After(s, r);
    StepKeepsAgents(s, r);
    RegistrationsAreKept(s, r, r.project, r.digest);
    if First(s.agents, RegisteredAs(r.project, r.digest)).None? {
      FirstOfAppended(s.agents, NewAgent(r), RegisteredAs(r.project, r.digest));
    }
    RunKeepsRegistrations(s1, between, r.project, r.digest);
    RegisteredCanAuthenticate(Run(s1, between).agents, First(Run(s1, between).agents, RegisteredAs(r.project, r.digest)).value);
  }

  /** A token is good exactly if it was signed for the project, the agent and the registration of a row. */
  lemma OnlyOwnTokensAuthenticate(agents: seq<Agent>, project: ProjectId, token: Token, id: AgentId)
    requires AgentsOk(agents)
    ensures
      Authenticate(agents, project, token) == Some(id) <==>
      exists k :: 0 <= k < |agents| && agents[k].project == project && agents[k].id == id && token == Signed(project, id, agents[k].digest)
  {
    if k :| 0 <= k < |agents| && agents[k].project == project && agents[k].id == id && token == Signed(project, id, agents[k].digest) {
      var found := First(agents, AgentIs(project, id));
      assert AgentIs(project, id)(agents[k]);
      var j :| 0 <= j < |agents| && agents[j] == found.value;
      assert j == k;
    }
    if Authenticate(agents, project, token) == Some(id) {
      var found := First(agents, AgentIs(project, id)).value;
      var j :| 0 <= j < |agents| && agents[j] == found;
    }
  }

  /** The request of the agent in the row: its authenticated poll, or its own registration once more. */
  predicate ComesFrom(s: State, r: Request, row: Agent) {
    && r.project == row.project
    && ((r.Sync? && Authenticate(s.agents, r.project, r.token) == Some(row.id))
        || (r.Register? && r.digest == row.digest && r.profile == row.profile))
  }

  /** A poll or a repeated registration marks exactly the row of its own agent as seen; nothing else of any row changes. */
  lemma OnlyOwnRequestsCountAsSeen(s: State, r: Request, k: nat)
    requires AgentsOk(s.agents) && k < |s.agents|
    ensures k < |After(s, r).agents|
    ensures
      After(s, r).agents[k] == if ComesFrom(s, r, s.agents[k]) then s.agents[k].(lastSeenAt := r.now) else s.agents[k]
  {
    if r.Register? {
      var found := First(s.agents, RegisteredAs(r.project, r.digest));
      if found.Some? {
        var j :| 0 <= j < |s.agents| && s.agents[j] == found.value;
        assert RegisteredAs(r.project, r.digest)(s.agents[k]) <==> j == k;
        assert AgentIs(r.project, s.agents[j].id)(s.agents[k]) <==> j == k;
      } else {
        assert s.agents[k] in s.agents;
      }
    }
  }

  // ----- The journal of sends -----

  function SentIds(events: seq<Event>): seq<MessageId> {
    if events == [] then []
    else
      var last := events[|events| - 1];
      SentIds(events[..|events| - 1]) + if last.MessageSent? && !last.deduplicated then [last.message] else []
  }

  function Ids(messages: seq<Message>): (ids: seq<MessageId>)
    ensures |ids| == |messages| && forall k :: 0 <= k < |messages| ==> ids[k] == messages[k].id
  {
    seq(|messages|, k requires 0 <= k < |messages| => messages[k].id)
  }

  lemma {:induction false} SentIdsOfJoined(events: seq<Event>, more: seq<Event>)
    ensures SentIds(events + more) == SentIds(events) + SentIds(more)
  {
    if more == [] {
      assert events + more == events;
    } else {
      SentIdsOfJoined(events, more[..|more| - 1]);
      assert (events + more)[..|events + more| - 1] == events + more[..|more| - 1];
    }
  }

  lemma {:induction false} AcknowledgedSendsNothing(project: ProjectId, caller: AgentId, rows: seq<Message>)
    ensures SentIds(AcknowledgedEvents(project, caller, rows)) == []
  {
    if rows != [] {
      AcknowledgedSendsNothing(project, caller, rows[..|rows| - 1]);
    }
  }

  /** What a request adds to the journal. */
  function NewEvents(s: State, r: Request): (more: seq<Event>)
    ensures After(s, r).events == s.events + more
  {
    After(s, r).events[|s.events|..]
  }

  lemma SyncEvents(s: State, r: Request, caller: AgentId)
    requires r.Sync? && Authenticate(s.agents, r.project, r.token) == Some(caller)
    ensures
      var acknowledged := NewlyAcknowledged(s, r, caller);
      var delivered := Least(|Remaining(s, r, caller)|, r.limit);
      NewEvents(s, r) == SyncedEvents(r, caller, delivered, |acknowledged|) + AcknowledgedEvents(r.project, caller, acknowledged)
  {
  }

  lemma NewSentIds(s: State, r: Request)
    ensures SentIds(NewEvents(s, r)) == if r.Send? && Judge(s, r).Accepted? then [r.newId] else []
  {
    if r.Sync? && Authenticate(s.agents, r.project, r.token).Some? {
      var caller := Authenticate(s.agents, r.project, r.token).value;
      var acknowledged := NewlyAcknowledged(s, r, caller);
      var synced := SyncedEvents(r, caller, Least(|Remaining(s, r, caller)|, r.limit), |acknowledged|);
      SyncEvents(s, r, caller);
      SentIdsOfJoined(synced, AcknowledgedEvents(r.project, caller, acknowledged));
      AcknowledgedSendsNothing(r.project, caller, acknowledged);
    }
  }

  lemma NewIds(s: State, r: Request)
    ensures Ids(After(s, r).messages) == Ids(s.messages) + if r.Send? && Judge(s, r).Accepted? then [r.newId] else []
  {
    var messages := After(s, r).messages;
    assert forall k :: 0 <= k < |s.messages| ==> messages[k].id == s.messages[k].id;
  }

  lemma StepKeepsSentIds(s: State, r: Request)
    requires SentIds(s.events) == Ids(s.messages)
    ensures SentIds(After(s, r).events) == Ids(After(s, r).messages)
  {
    SentIdsOfJoined(s.events, NewEvents(s, r));
    NewSentIds(s, r);
    NewIds(s, r);
  }

  // ----- The journal of acknowledgements -----

  function AckEvents(events: seq<Event>, id: MessageId): nat {
    if events == [] then 0
    else
      var last := events[|events| - 1];
      AckEvents(events[..|events| - 1], id) + if last.MessageAcknowledged? && last.message == id then 1 else 0
  }

  lemma {:induction false} AckEventsOfJoined(events: seq<Event>, more: seq<Event>, id: MessageId)
    ensures AckEvents(events + more, id) == AckEvents(events, id) + AckEvents(more, id)
  {
    if more == [] {
      assert events + more == events;
    } else {
      AckEventsOfJoined(events, more[..|more| - 1], id);
      assert (events + more)[..|events + more| - 1] == events + more[..|more| - 1];
    }
  }

  ghost predicate DistinctIds(rows: seq<Message>) {
    forall i, j :: 0 <= i < j < |rows| ==> rows[i].id != rows[j].id
  }

  ghost predicate HasId(rows: seq<Message>, id: MessageId) {
    exists k :: 0 <= k < |rows| && rows[k].id == id
  }

  lemma LastHasId(rows: seq<Message>, last: Message, id: MessageId)
    ensures HasId(rows + [last], id) <==> HasId(rows, id) || last.id == id
  {
    if HasId(rows, id) {
      var k :| 0 <= k < |rows| && rows[k].id == id;
      assert (rows + [last])[k].id == id;
    }
    assert (rows + [last])[|rows|] == last;
  }

  lemma {:induction false} OneEventEach(project: ProjectId, caller: AgentId, rows: seq<Message>, id: MessageId)
    requires DistinctIds(rows)
    ensures AckEvents(AcknowledgedEvents(project, caller, rows), id) == if HasId(rows, id) then 1 else 0
  {
    if rows != [] {
      var rest, last := rows[..|rows| - 1], rows[|rows| - 1];
      assert rows == rest + [last];
      assert !HasId(rest, last.id);
      LastHasId(rest, last, id);
      OneEventEach(project, caller, rest, id);
    }
  }

  lemma {:induction false} WhereIsDistinct(rows: seq<Message>, p: Message -> bool)
    requires DistinctIds(rows)
    ensures DistinctIds(Where(rows, p))
  {
    if rows != [] {
      WhereIsDistinct(rows[..|rows| - 1], p);
      var found := Where(rows[..|rows| - 1], p);
      forall i | 0 <= i < |found|
        ensures found[i].id != rows[|rows| - 1].id
      {
        WhereHolds(rows[..|rows| - 1], p, found[i]);
      }
    }
  }

  /** A message has one acknowledgement event if it is acknowledged and none otherwise. */
  ghost predicate AcksOk(s: State) {
    forall k :: 0 <= k < |s.messages| ==>
      AckEvents(s.events, s.messages[k].id) == if s.messages[k].acknowledgedAt.Some? then 1 else 0
  }

  /** Every acknowledgement event names a message of its project and, as actor, that message's recipient. */
  ghost predicate AckedByRecipient(s: State, e: Event) {
    e.MessageAcknowledged? ==>
      exists m :: m in s.messages && m.id == e.message && m.project == e.project && m.recipient == e.actor
  }

  ghost predicate ActorsOk(s: State) {
    forall e :: e in s.events ==> AckedByRecipient(s, e)
  }

  /** Who can acknowledge: only the recipient, in the message's project, by a poll that names the message; and the time
      of the acknowledgement never changes. */
  predicate AcknowledgesNow(s: State, r: Request, m: Message) {
    && r.Sync? && r.project == m.project && m.id in r.acknowledge && m.acknowledgedAt.None?
    && Authenticate(s.agents, r.project, r.token) == Some(m.recipient)
  }

  lemma AcknowledgementIsTheRecipients(s: State, r: Request, k: nat)
    requires k < |s.messages|
    ensures k < |After(s, r).messages|
    ensures
      After(s, r).messages[k] ==
      if AcknowledgesNow(s, r, s.messages[k]) then s.messages[k].(acknowledgedAt := Some(r.now)) else s.messages[k]
  {
  }

  lemma UnknownHasNoAck(s: State, id: MessageId)
    requires ActorsOk(s) && !HasId(s.messages, id)
    ensures AckEvents(s.events, id) == 0
  {
    NoAckWithoutEvent(s.events, id);
  }

  lemma {:induction false} NoAckWithoutEvent(events: seq<Event>, id: MessageId)
    requires forall e :: e in events && e.MessageAcknowledged? ==> e.message != id
    ensures AckEvents(events, id) == 0
  {
    if events != [] {
      assert events[|events| - 1] in events;
      NoAckWithoutEvent(events[..|events| - 1], id);
    }
  }

  /** A request adds one acknowledgement event for a message exactly when it acknowledges it. */
  lemma NewAckEvents(s: State, r: Request, k: nat)
    requires DistinctIds(s.messages) && k < |s.messages|
    ensures AckEvents(NewEvents(s, r), s.messages[k].id) == if AcknowledgesNow(s, r, s.messages[k]) then 1 else 0
  {
    var m := s.messages[k];
    if r.Sync? && Authenticate(s.agents, r.project, r.token).Some? {
      var caller := Authenticate(s.agents, r.project, r.token).value;
      var acknowledged := NewlyAcknowledged(s, r, caller);
      var synced := SyncedEvents(r, caller, Least(|Remaining(s, r, caller)|, r.limit), |acknowledged|);
      SyncEvents(s, r, caller);
      AckEventsOfJoined(synced, AcknowledgedEvents(r.project, caller, acknowledged), m.id);
      WhereIsDistinct(s.messages, AcknowledgedBy(r.project, caller, r.acknowledge));
      OneEventEach(r.project, caller, acknowledged, m.id);
      AcknowledgedIffNamed(s, r, caller, k);
    }
  }

  lemma AcknowledgedIffNamed(s: State, r: Request, caller: AgentId, k: nat)
    requires DistinctIds(s.messages) && k < |s.messages|
    requires r.Sync? && Authenticate(s.agents, r.project, r.token) == Some(caller)
    ensures HasId(NewlyAcknowledged(s, r, caller), s.messages[k].id) <==> AcknowledgesNow(s, r, s.messages[k])
  {
    var m, acknowledged := s.messages[k], NewlyAcknowledged(s, r, caller);
    WhereHolds(s.messages, AcknowledgedBy(r.project, caller, r.acknowledge), m);
    if HasId(acknowledged, m.id) {
      var j :| 0 <= j < |acknowledged| && acknowledged[j].id == m.id;
      WhereHolds(s.messages, AcknowledgedBy(r.project, caller, r.acknowledge), acknowledged[j]);
      var i :| 0 <= i < |s.messages| && s.messages[i] == acknowledged[j];
    }
    if AcknowledgesNow(s, r, m) {
      assert m in acknowledged;
    }
  }

  lemma StepKeepsAcks(s: State, r: Request)
    requires TablesOk(s) && AcksOk(s) && ActorsOk(s) && Fresh(s, r)
    ensures AcksOk(After(s, r))
  {
    var s' := After(s, r);
    forall k | 0 <= k < |s'.messages|
      ensures AckEvents(s'.events, s'.messages[k].id) == if s'.messages[k].acknowledgedAt.Some? then 1 else 0
    {
      AckEventsOfJoined(s.events, NewEvents(s, r), s'.messages[k].id);
      if k < |s.messages| {
        AcknowledgementIsTheRecipients(s, r, k);
        NewAckEvents(s, r, k);
      } else {
        UnknownHasNoAck(s, r.newId);
      }
    }
  }

  lemma {:induction false} AcknowledgedEventsNameRows(project: ProjectId, caller: AgentId, rows: seq<Message>, e: Event)
    requires e in AcknowledgedEvents(project, caller, rows)
    ensures exists m :: m in rows && e == MessageAcknowledged(project, caller, m.id)
  {
    var rest, last := rows[..|rows| - 1], rows[|rows| - 1];
    if e == MessageAcknowledged(project, caller, last.id) {
      assert last in rows;
    } else {
      AcknowledgedEventsNameRows(project, caller, rest, e);
      var m :| m in rest && e == MessageAcknowledged(project, caller, m.id);
      assert m in rows;
    }
  }

  lemma StepKeepsActors(s: State, r: Request)
    requires ActorsOk(s)
    ensures ActorsOk(After(s, r))
  {
    var s' := After(s, r);
    forall e | e in s'.events && e.MessageAcknowledged?
      ensures AckedByRecipient(s', e)
    {
      var m: Message;
      if e in s.events {
        assert AckedByRecipient(s, e);
        m :| m in s.messages && m.id == e.message && m.project == e.project && m.recipient == e.actor;
      } else {
        var caller := Authenticate(s.agents, r.project, r.token).value;
        AcknowledgedEventsNameRows(r.project, caller, NewlyAcknowledged(s, r, caller), e);
        m :| m in NewlyAcknowledged(s, r, caller) && e == MessageAcknowledged(r.project, caller, m.id);
        WhereHolds(s.messages, AcknowledgedBy(r.project, caller, r.acknowledge), m);
      }
      var k :| 0 <= k < |s.messages| && s.messages[k] == m;
      AcknowledgementIsTheRecipients(s, r, k);
      assert s'.messages[k] in s'.messages;
    }
  }

  // ----- The counts returned over a run -----

  function CountAcknowledged(messages: seq<Message>): nat {
    if messages == [] then 0
    else CountAcknowledged(messages[..|messages| - 1]) + if messages[|messages| - 1].acknowledgedAt.Some? then 1 else 0
  }

  function Returned(reply: Reply): nat {
    if reply.Synced? then reply.acknowledged else 0
  }

  function Total(replies: seq<Reply>): nat {
    if replies == [] then 0 else Returned(replies[0]) + Total(replies[1..])
  }

  lemma {:induction false} CountAfterSync(
    messages: seq<Message>, project: ProjectId, caller: AgentId, ids: seq<MessageId>, now: int)
    ensures CountAcknowledged(Acknowledged(messages, project, caller, ids, now))
         == CountAcknowledged(messages) + |Where(messages, AcknowledgedBy(project, caller, ids))|
  {
    if messages != [] {
      var rest := messages[..|messages| - 1];
      CountAfterSync(rest, project, caller, ids, now);
      var after := Acknowledged(messages, project, caller, ids, now);
      assert after[..|after| - 1] == Acknowledged(rest, project, caller, ids, now);
    }
  }

  lemma StepCounts(s: State, r: Request)
    ensures CountAcknowledged(After(s, r).messages) == CountAcknowledged(s.messages) + Returned(ReplyTo(s, r))
  {
    if r.Sync? && Authenticate(s.agents, r.project, r.token).Some? {
      CountAfterSync(s.messages, r.project, Authenticate(s.agents, r.project, r.token).value, r.acknowledge, r.now);
    } else if |After(s, r).messages| > |s.messages| {
      assert After(s, r).messages[..|s.messages|] == s.messages;
    }
  }

  lemma {:induction false} RunCounts(s: State, rs: seq<Request>)
    ensures CountAcknowledged(Run(s, rs).messages) == CountAcknowledged(s.messages) + Total(Replies(s, rs))
    decreases |rs|
  {
    if rs != [] {
      StepCounts(s, rs[0]);
      RunCounts(After(s, rs[0]), rs[1..]);
    }
  }

  // ----- Whole runs -----

  ghost predicate Consistent(s: State) {
    TablesOk(s) && SentIds(s.events) == Ids(s.messages) && AcksOk(s) && ActorsOk(s)
  }

  lemma {:induction false} RunKeepsConsistent(s: State, rs: seq<Request>)
    requires Consistent(s) && FreshRun(s, rs)
    ensures Consistent(Run(s, rs))
    decreases |rs|
  {
    if rs != [] {
      StepKeepsTables(s, rs[0]);
      StepKeepsSentIds(s, rs[0]);
      StepKeepsAcks(s, rs[0]);
      StepKeepsActors(s, rs[0]);
      RunKeepsConsistent(After(s, rs[0]), rs[1..]);
    }
  }

  /** In every reachable state the messages correspond, one to one and in order, to the `message.sent` events that were
      not deduplicated. */
  lemma JournalAccountsForMessages(rs: seq<Request>)
    requires FreshRun(EMPTY, rs)
    ensures
      var s := Run(EMPTY, rs);
      SentIds(s.events) == Ids(s.messages) && DistinctIds(s.messages)
  {
    RunKeepsConsistent(EMPTY, rs);
  }

  /** In every reachable state a message has exactly one acknowledgement event if it is acknowledged and none otherwise,
      each such event is its recipient's, and the counts returned over the run sum to the acknowledged messages. */
  lemma AcknowledgementsAreConserved(rs: seq<Request>)
    requires FreshRun(EMPTY, rs)
    ensures
      var s := Run(EMPTY, rs);
      && AcksOk(s) && ActorsOk(s)
      && Total(Replies(EMPTY, rs)) == CountAcknowledged(s.messages)
  {
    RunKeepsConsistent(EMPTY, rs);
    RunCounts(EMPTY, rs);
  }

  /** Once set, the time of an acknowledgement stays, and nothing else of a message ever changes. */
  lemma {:induction false} MessagesAreImmutable(s: State, rs: seq<Request>, k: nat)
    requires k < |s.messages|
    ensures k < |Run(s, rs).messages|
    ensures
      var before, after := s.messages[k], Run(s, rs).messages[k];
      if before.acknowledgedAt.Some? then after == before else after == before.(acknowledgedAt := after.acknowledgedAt)
    decreases |rs|
  {
    if rs != [] {
      AcknowledgementIsTheRecipients(s, rs[0], k);
      MessagesAreImmutable(After(s, rs[0]), rs[1..], k);
    }
  }
}
