/** What each mailbox request does, case by case and in terms of the rows alone: these statements use no query of the
    code that they are about. Together they cover every request to tables that satisfy the unique constraints. */
module MailboxContract {
  import opened Wrappers
  import opened Mailbox
  import opened MailboxHistory

  /** The request presents the token that was issued to the agent in row `i` of its project. */
  predicate From(s: State, r: Request, i: nat)
    requires !r.Register? && i < |s.agents|
  {
    s.agents[i].project == r.project && r.token == Signed(r.project, s.agents[i].id, s.agents[i].digest)
  }

  ghost predicate FromNobody(s: State, r: Request)
    requires !r.Register?
  {
    forall i :: 0 <= i < |s.agents| ==> !From(s, r, i)
  }

  lemma Identified(s: State, r: Request, i: nat)
    requires !r.Register? && AgentsOk(s.agents) && i < |s.agents| && From(s, r, i)
    ensures Authenticate(s.agents, r.project, r.token) == Some(s.agents[i].id)
    ensures First(s.agents, AgentIs(r.project, s.agents[i].id)) == Some(s.agents[i])
  {
    OnlyOwnTokensAuthenticate(s.agents, r.project, r.token, s.agents[i].id);
    FirstAgent(s.agents, r.project, i);
  }

  lemma FirstAgent(agents: seq<Agent>, project: ProjectId, i: nat)
    requires AgentsOk(agents) && i < |agents| && agents[i].project == project
    ensures First(agents, AgentIs(project, agents[i].id)) == Some(agents[i])
  {
    var found := First(agents, AgentIs(project, agents[i].id));
    assert agents[i] in agents;
    var j :| 0 <= j < |agents| && agents[j] == found.value;
  }

  lemma Unidentified(s: State, r: Request)
    requires !r.Register? && AgentsOk(s.agents) && FromNobody(s, r)
    ensures Authenticate(s.agents, r.project, r.token) == None
  {
    var id := Authenticate(s.agents, r.project, r.token);
    if id.Some? {
      OnlyOwnTokensAuthenticate(s.agents, r.project, r.token, id.value);
      var k :| 0 <= k < |s.agents| && s.agents[k].project == r.project && s.agents[k].id == id.value
        && r.token == Signed(r.project, id.value, s.agents[k].digest);
      assert From(s, r, k);
    }
  }

  // ----- Registration -----

  /** A session that has no agent in the project gets one, with the token of that very registration. */
  lemma NewSessionIsRegistered(s: State, r: Request)
    requires r.Register? && forall k :: 0 <= k < |s.agents| ==> s.agents[k].project != r.project || s.agents[k].digest != r.digest
    ensures
      var agent := Agent(r.newId, r.project, r.digest, r.profile, r.now);
      && ReplyTo(s, r) == Registered(agent, Signed(r.project, r.newId, r.digest))
      && After(s, r) == State(s.agents + [agent], s.messages, s.events + [AgentRegistered(r.project, r.newId)])
  {
    assert First(s.agents, RegisteredAs(r.project, r.digest)).None?;
  }

  /** A session that has an agent gets the token of that agent, which has now been seen, if the profile is the same. */
  lemma RepeatedRegistrationIsExact(s: State, r: Request, i: nat)
    requires r.Register? && AgentsOk(s.agents) && i < |s.agents|
    requires s.agents[i].project == r.project && s.agents[i].digest == r.digest
    ensures
      var agent := s.agents[i].(lastSeenAt := r.now);
      if s.agents[i].profile == r.profile then
        && ReplyTo(s, r) == Registered(agent, Signed(r.project, agent.id, r.digest))
        && After(s, r) == State(s.agents[i := agent], s.messages, s.events + [AgentRegistered(r.project, agent.id)])
      else
        && ReplyTo(s, r) == Failed(RegistrationConflict)
        && After(s, r).agents == s.agents && After(s, r).messages == s.messages
        && After(s, r).events ==
           s.events + if r.journalUp then [RegistrationFailed(r.project, RegistrationConflict)] else []
  {
    var found := First(s.agents, RegisteredAs(r.project, r.digest));
    assert s.agents[i] in s.agents;
    var j :| 0 <= j < |s.agents| && s.agents[j] == found.value;
    assert j == i;
    OnlyOneIsSeen(s.agents, r.project, i, r.now);
  }

  lemma OnlyOneIsSeen(agents: seq<Agent>, project: ProjectId, i: nat, now: int)
    requires AgentsOk(agents) && i < |agents| && agents[i].project == project
    ensures Seen(agents, project, agents[i].id, now) == agents[i := agents[i].(lastSeenAt := now)]
  {
    var seen := Seen(agents, project, agents[i].id, now);
    forall k | 0 <= k < |agents|
      ensures seen[k] == if k == i then agents[i].(lastSeenAt := now) else agents[k]
    {
      assert AgentIs(project, agents[i].id)(agents[k]) <==> k == i;
    }
  }

  // ----- Sending -----

  /** The message in row `k` has the project, the sender and the key of the request. */
  predicate HasKeyOf(s: State, r: Request, i: nat, k: nat)
    requires r.Send? && i < |s.agents| && k < |s.messages|
  {
    s.messages[k].project == r.project && s.messages[k].sender == s.agents[i].id && s.messages[k].key == r.key
  }

  /** A message to another agent of the project, under a key that its sender has not used, is stored and returned. */
  lemma NewMessageIsStored(s: State, r: Request, i: nat, j: nat)
    requires r.Send? && AgentsOk(s.agents) && i < |s.agents| && j < |s.agents| && i != j
    requires From(s, r, i) && s.agents[j].project == r.project && s.agents[j].id == r.to
    requires forall k :: 0 <= k < |s.messages| ==> !HasKeyOf(s, r, i, k)
    ensures
      var a, b := s.agents[i].id, s.agents[j].id;
      && ReplyTo(s, r) == Sent(PublicMessage(r.newId, r.newSequence, a, b, r.text, r.now), false)
      && After(s, r) ==
         State(s.agents,
               s.messages + [Message(r.newId, r.newSequence, r.project, a, b, r.text, r.key, r.now, None)],
               s.events + [MessageSent(r.project, a, b, r.newId, false)])
  {
    Identified(s, r, i);
    FirstAgent(s.agents, r.project, j);
    assert s.agents[i].id != s.agents[j].id;
    var found := First(s.messages, KeyedBy(r.project, s.agents[i].id, r.key));
    if found.Some? {
      var k :| 0 <= k < |s.messages| && s.messages[k] == found.value;
      assert HasKeyOf(s, r, i, k);
    }
  }

  /** Under a used key the stored message is returned, if it is the same text to the same agent, and nothing else
      succeeds. */
  lemma UsedKeyIsExact(s: State, r: Request, i: nat, j: nat, k: nat)
    requires r.Send? && TablesOk(s) && i < |s.agents| && j < |s.agents| && i != j && k < |s.messages|
    requires From(s, r, i) && s.agents[j].project == r.project && s.agents[j].id == r.to && HasKeyOf(s, r, i, k)
    ensures
      var m := s.messages[k];
      && After(s, r).agents == s.agents && After(s, r).messages == s.messages
      && if m.recipient == r.to && m.text == r.text then
           && ReplyTo(s, r) == Sent(PublicMessage(m.id, m.sequence, m.sender, m.recipient, m.text, m.createdAt), true)
           && After(s, r).events == s.events + [MessageSent(r.project, m.sender, m.recipient, m.id, true)]
         else
           && ReplyTo(s, r) == Failed(IdempotencyConflict)
           && After(s, r).events ==
              s.events +
              if r.journalUp then [SendFailed(r.project, Some(s.agents[i].id), Some(r.to), IdempotencyConflict)] else []
  {
    Identified(s, r, i);
    FirstAgent(s.agents, r.project, j);
    assert s.agents[i].id != s.agents[j].id;
    FirstMessage(s.messages, r.project, s.agents[i].id, r.key, k);
  }

  lemma FirstMessage(messages: seq<Message>, project: ProjectId, sender: AgentId, key: nat, k: nat)
    requires MessagesOk(messages) && k < |messages| && KeyedBy(project, sender, key)(messages[k])
    ensures First(messages, KeyedBy(project, sender, key)) == Some(messages[k])
  {
    var found := First(messages, KeyedBy(project, sender, key));
    assert messages[k] in messages;
    var n :| 0 <= n < |messages| && messages[n] == found.value;
    assert n == k;
  }

  /** Who sends to itself or to no agent of the project is refused, whatever the key. */
  lemma BadTargetIsRefused(s: State, r: Request, i: nat)
    requires r.Send? && AgentsOk(s.agents) && i < |s.agents| && From(s, r, i)
    requires s.agents[i].id == r.to || forall j :: 0 <= j < |s.agents| ==> s.agents[j].project != r.project || s.agents[j].id != r.to
    ensures ReplyTo(s, r) == Failed(TargetAgentInvalid)
    ensures
      var failure := SendFailed(r.project, Some(s.agents[i].id), None, TargetAgentInvalid);
      After(s, r) == State(s.agents, s.messages, s.events + if r.journalUp then [failure] else [])
  {
    Identified(s, r, i);
  }

  /** A token that was issued to no agent of the project is refused before anything else is looked at. */
  lemma BadTokenIsRefused(s: State, r: Request)
    requires !r.Register? && AgentsOk(s.agents) && FromNobody(s, r)
    ensures ReplyTo(s, r) == Failed(AgentAuthInvalid)
    ensures
      var failure :=
        if r.Send? then SendFailed(r.project, None, None, AgentAuthInvalid) else SyncFailed(r.project, AgentAuthInvalid);
      After(s, r) == State(s.agents, s.messages, s.events + if r.journalUp then [failure] else [])
  {
    Unidentified(s, r);
  }

  // ----- Polling -----

  /** A filter keeps exactly the rows that match, in their order. */
  lemma {:induction false} WhereLists<T>(rows: seq<T>, p: T -> bool) returns (positions: seq<nat>)
    ensures Lists(positions, |rows|, (k: nat) => k < |rows| && p(rows[k]))
    ensures |Where(rows, p)| == |positions|
    ensures forall x :: 0 <= x < |positions| ==> Where(rows, p)[x] == rows[positions[x]]
  {
    if rows == [] {
      positions := [];
    } else {
      var last := |rows| - 1;
      positions := WhereLists(rows[..last], p);
      if p(rows[last]) {
        positions := positions + [last];
      }
    }
  }

  lemma {:induction false} EventOfEachRow(project: ProjectId, caller: AgentId, rows: seq<Message>, x: nat)
    requires x < |rows|
    ensures |AcknowledgedEvents(project, caller, rows)| == |rows|
    ensures AcknowledgedEvents(project, caller, rows)[x] == MessageAcknowledged(project, caller, rows[x].id)
  {
    EventsAreAsMany(project, caller, rows);
    var rest := rows[..|rows| - 1];
    EventsAreAsMany(project, caller, rest);
    if x < |rest| {
      EventOfEachRow(project, caller, rest, x);
    }
  }

  lemma {:induction false} EventsAreAsMany(project: ProjectId, caller: AgentId, rows: seq<Message>)
    ensures |AcknowledgedEvents(project, caller, rows)| == |rows|
  {
    if rows != [] {
      EventsAreAsMany(project, caller, rows[..|rows| - 1]);
    }
  }

  /** The row is unread mail of the agent, and the request names it. */
  predicate AcknowledgesRow(s: State, r: Request, i: nat, k: nat)
    requires r.Sync? && i < |s.agents|
  {
    && k < |s.messages| && s.messages[k].project == r.project && s.messages[k].recipient == s.agents[i].id
    && s.messages[k].acknowledgedAt.None?
    && exists x :: 0 <= x < |r.acknowledge| && r.acknowledge[x] == s.messages[k].id
  }

  /** The row is unread mail of the agent, and the request does not name it. */
  predicate LeavesRow(s: State, r: Request, i: nat, k: nat)
    requires r.Sync? && i < |s.agents|
  {
    && k < |s.messages| && s.messages[k].project == r.project && s.messages[k].recipient == s.agents[i].id
    && s.messages[k].acknowledgedAt.None?
    && forall x :: 0 <= x < |r.acknowledge| ==> r.acknowledge[x] != s.messages[k].id
  }

  /** A poll has seen its agent, and acknowledges exactly the unread mail that it names. */
  lemma PollTables(s: State, r: Request, i: nat)
    requires r.Sync? && AgentsOk(s.agents) && i < |s.agents| && From(s, r, i)
    ensures After(s, r).agents == s.agents[i := s.agents[i].(lastSeenAt := r.now)]
    ensures |After(s, r).messages| == |s.messages|
    ensures forall k :: 0 <= k < |s.messages| ==>
      After(s, r).messages[k] ==
      if AcknowledgesRow(s, r, i, k) then s.messages[k].(acknowledgedAt := Some(r.now)) else s.messages[k]
  {
    Identified(s, r, i);
    OnlyOneIsSeen(s.agents, r.project, i, r.now);
    forall k | 0 <= k < |s.messages|
      ensures AcknowledgesRow(s, r, i, k) <==> AcknowledgedBy(r.project, s.agents[i].id, r.acknowledge)(s.messages[k])
    {
    }
  }

  lemma NamedRows(s: State, r: Request, i: nat) returns (named: seq<nat>)
    requires r.Sync? && i < |s.agents|
    ensures Lists(named, |s.messages|, (k: nat) => AcknowledgesRow(s, r, i, k))
    ensures |NewlyAcknowledged(s, r, s.agents[i].id)| == |named|
    ensures forall x :: 0 <= x < |named| ==> NewlyAcknowledged(s, r, s.agents[i].id)[x] == s.messages[named[x]]
  {
    named := WhereLists(s.messages, AcknowledgedBy(r.project, s.agents[i].id, r.acknowledge));
  }

  lemma LeftRows(s: State, r: Request, i: nat) returns (left: seq<nat>)
    requires r.Sync? && i < |s.agents|
    ensures Lists(left, |s.messages|, (k: nat) => LeavesRow(s, r, i, k))
    ensures |Remaining(s, r, s.agents[i].id)| == |left|
    ensures forall x :: 0 <= x < |left| ==> Remaining(s, r, s.agents[i].id)[x] == s.messages[left[x]]
  {
    var caller := s.agents[i].id;
    var after := Acknowledged(s.messages, r.project, caller, r.acknowledge, r.now);
    left := WhereLists(after, UnreadBy(r.project, caller));
    forall k: nat | k < |s.messages|
      ensures UnreadBy(r.project, caller)(after[k]) <==> LeavesRow(s, r, i, k)
      ensures LeavesRow(s, r, i, k) ==> after[k] == s.messages[k]
    {
      assert AcknowledgedBy(r.project, caller, r.acknowledge)(s.messages[k]) <==> AcknowledgesRow(s, r, i, k);
    }
  }

  /** It answers with the oldest unread mail that is left, up to the limit, and says whether there is more. It records
      the poll, unless nothing was delivered or acknowledged, and then every acknowledgement in order. */
  lemma PollIsExact(s: State, r: Request, i: nat) returns (left: seq<nat>, named: seq<nat>)
    requires r.Sync? && AgentsOk(s.agents) && i < |s.agents| && From(s, r, i)
    ensures Lists(left, |s.messages|, (k: nat) => LeavesRow(s, r, i, k))
    ensures Lists(named, |s.messages|, (k: nat) => AcknowledgesRow(s, r, i, k))
    ensures
      var reply := ReplyTo(s, r);
      && reply.Synced? && reply.agent == s.agents[i].(lastSeenAt := r.now) && reply.acknowledged == |named|
      && |reply.messages| == (if |left| <= r.limit then |left| else r.limit) && (reply.hasMore <==> r.limit < |left|)
      && (forall x :: 0 <= x < |reply.messages| ==>
            var m := s.messages[left[x]];
            reply.messages[x] == PublicMessage(m.id, m.sequence, m.sender, m.recipient, m.text, m.createdAt))
      && var synced :=
           if reply.messages != [] || named != []
           then [AgentSynced(r.project, s.agents[i].id, |reply.messages|, |named|, r.limit)] else [];
         After(s, r).events ==
         s.events + synced +
         seq(|named|, x requires 0 <= x < |named| => MessageAcknowledged(r.project, s.agents[i].id, s.messages[named[x]].id))
  {
    Identified(s, r, i);
    left := LeftRows(s, r, i);
    named := NamedRows(s, r, i);
    RecordedRows(s, r, i, named);
  }

  lemma RecordedRows(s: State, r: Request, i: nat, named: seq<nat>)
    requires r.Sync? && i < |s.agents|
    requires forall x :: 0 <= x < |named| ==> named[x] < |s.messages|
    requires |NewlyAcknowledged(s, r, s.agents[i].id)| == |named|
    requires forall x :: 0 <= x < |named| ==> NewlyAcknowledged(s, r, s.agents[i].id)[x] == s.messages[named[x]]
    ensures
      AcknowledgedEvents(r.project, s.agents[i].id, NewlyAcknowledged(s, r, s.agents[i].id)) ==
      seq(|named|, x requires 0 <= x < |named| => MessageAcknowledged(r.project, s.agents[i].id, s.messages[named[x]].id))
  {
    var caller := s.agents[i].id;
    var rows := NewlyAcknowledged(s, r, caller);
    EventsAreAsMany(r.project, caller, rows);
    forall x | 0 <= x < |named|
      ensures AcknowledgedEvents(r.project, caller, rows)[x] == MessageAcknowledged(r.project, caller, s.messages[named[x]].id)
    {
      EventOfEachRow(r.project, caller, rows, x);
    }
  }
}
