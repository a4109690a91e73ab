/** Registration, sending and polling. Each request is one transaction and takes one step; the rows of a table are kept
    in the order of their sequence numbers. Identifiers, sequence numbers and the time come with the request. */
module Mailbox {
  import opened Wrappers

  type ProjectId = nat
  type AgentId = nat
  type MessageId = nat

  // ----- Rows -----

  /** Capabilities are stored sorted, so only how often each occurs matters. */
  datatype Profile = Profile(name: string, client: string, capabilities: multiset<string>)

  datatype Agent = Agent(id: AgentId, project: ProjectId, digest: nat, profile: Profile, lastSeenAt: int)

  datatype Message = Message(
    id: MessageId, sequence: nat, project: ProjectId, sender: AgentId, recipient: AgentId, text: string, key: nat,
    createdAt: int, acknowledgedAt: Option<int>)

  datatype ErrorCode = AgentAuthInvalid | RegistrationConflict | TargetAgentInvalid | IdempotencyConflict

  datatype Event =
    | AgentRegistered(project: ProjectId, actor: AgentId)
    | RegistrationFailed(project: ProjectId, code: ErrorCode)
    | MessageSent(project: ProjectId, actor: AgentId, target: AgentId, message: MessageId, deduplicated: bool)
    | SendFailed(project: ProjectId, sender: Option<AgentId>, to: Option<AgentId>, code: ErrorCode)
    | AgentSynced(project: ProjectId, actor: AgentId, delivered: nat, acknowledged: nat, limit: nat)
    | SyncFailed(project: ProjectId, code: ErrorCode)
    | MessageAcknowledged(project: ProjectId, actor: AgentId, message: MessageId)

  datatype State = State(agents: seq<Agent>, messages: seq<Message>, events: seq<Event>)

  // ----- Requests and replies -----

  /** A signed token is bound to a project, an agent and its registration; any other text is invalid. */
  datatype Token = Invalid | Signed(project: ProjectId, agent: AgentId, digest: nat)

  /** `journalUp` says whether the failure event of a failed request, recorded with best effort, is stored. */
  datatype Request =
    | Register(project: ProjectId, digest: nat, profile: Profile, now: int, newId: nat, journalUp: bool)
    | Send(
        project: ProjectId, token: Token, to: AgentId, text: string, key: nat, now: int, newId: nat, newSequence: nat,
        journalUp: bool)
    | Sync(project: ProjectId, token: Token, acknowledge: seq<MessageId>, limit: nat, now: int, journalUp: bool)

  datatype PublicMessage = PublicMessage(
    id: MessageId, sequence: nat, fromAgent: AgentId, toAgent: AgentId, text: string, createdAt: int)

  datatype Reply =
    | Registered(agent: Agent, token: Token)
    | Sent(message: PublicMessage, deduplicated: bool)
    | Synced(agent: Agent, acknowledged: nat, messages: seq<PublicMessage>, hasMore: bool)
    | Failed(code: ErrorCode)

  function Public(m: Message): PublicMessage {
    PublicMessage(m.id, m.sequence, m.sender, m.recipient, m.text, m.createdAt)
  }

  function PublicAll(messages: seq<Message>): (all: seq<PublicMessage>)
    ensures |all| == |messages| && forall k :: 0 <= k < |messages| ==> all[k] == Public(messages[k])
  {
    seq(|messages|, k requires 0 <= k < |messages| => Public(messages[k]))
  }

  // ----- Queries -----

  function First<T(!new)>(rows: seq<T>, matches: T -> bool): (found: Option<T>)
    ensures found.Some? ==> found.value in rows && matches(found.value)
    ensures found.None? ==> forall row :: row in rows ==> !matches(row)
  {
    if rows == [] then None else if matches(rows[0]) then Some(rows[0]) else First(rows[1..], matches)
  }

  function Where<T>(rows: seq<T>, matches: T -> bool): seq<T> {
    if rows == [] then []
    else
      var last := rows[|rows| - 1];
      Where(rows[..|rows| - 1], matches) + if matches(last) then [last] else []
  }

  function AgentIs(project: ProjectId, id: AgentId): Agent -> bool {
    (row: Agent) => row.project == project && row.id == id
  }

  function RegisteredAs(project: ProjectId, digest: nat): Agent -> bool {
    (row: Agent) => row.project == project && row.digest == digest
  }

  function KeyedBy(project: ProjectId, sender: AgentId, key: nat): Message -> bool {
    (row: Message) => row.project == project && row.sender == sender && row.key == key
  }

  function UnreadBy(project: ProjectId, agent: AgentId): Message -> bool {
    (row: Message) => row.project == project && row.recipient == agent && row.acknowledgedAt.None?
  }

  function AcknowledgedBy(project: ProjectId, agent: AgentId, ids: seq<MessageId>): Message -> bool {
    (row: Message) => row.project == project && row.recipient == agent && row.id in ids && row.acknowledgedAt.None?
  }

  function Authenticate(agents: seq<Agent>, project: ProjectId, token: Token): Option<AgentId> {
    if !token.Signed? then None
    else
      match First(agents, AgentIs(project, token.agent))
      case None => None
      case Some(row) => if token == Signed(project, row.id, row.digest) then Some(row.id) else None
  }

  // ----- Updates -----

  function Seen(agents: seq<Agent>, project: ProjectId, id: AgentId, now: int): (after: seq<Agent>)
    ensures |after| == |agents|
  {
    seq(|agents|, k requires 0 <= k < |agents| =>
      if AgentIs(project, id)(agents[k]) then agents[k].(lastSeenAt := now) else agents[k])
  }

  function Acknowledged(messages: seq<Message>, project: ProjectId, agent: AgentId, ids: seq<MessageId>, now: int):
    (after: seq<Message>)
    ensures |after| == |messages|
  {
    seq(|messages|, k requires 0 <= k < |messages| =>
      if AcknowledgedBy(project, agent, ids)(messages[k]) then messages[k].(acknowledgedAt := Some(now)) else messages[k])
  }

  // ----- Specification of the requests -----

  datatype Verdict =
    | Rejected(code: ErrorCode, sender: Option<AgentId>, target: Option<AgentId>)
    | Repeated(actor: AgentId, message: Message)
    | Accepted(actor: AgentId)

  /** What becomes of a message: the key is compared only once sender and target are known to be good. */
  function Judge(s: State, r: Request): Verdict
    requires r.Send?
  {
    match Authenticate(s.agents, r.project, r.token)
    case None => Rejected(AgentAuthInvalid, None, None)
    case Some(sender) =>
      if sender == r.to || First(s.agents, AgentIs(r.project, r.to)).None? then Rejected(TargetAgentInvalid, Some(sender), None)
      else
        match First(s.messages, KeyedBy(r.project, sender, r.key))
        case None => Accepted(sender)
        case Some(m) =>
          if m.recipient == r.to && m.text == r.text then Repeated(sender, m)
          else Rejected(IdempotencyConflict, Some(sender), Some(r.to))
  }

  function NewMessage(r: Request, sender: AgentId): Message
    requires r.Send?
  {
    Message(r.newId, r.newSequence, r.project, sender, r.to, r.text, r.key, r.now, None)
  }

  function IfUp(journalUp: bool, e: Event): seq<Event> {
    if journalUp then [e] else []
  }

  function AfterSend(s: State, r: Request): State
    requires r.Send?
  {
    match Judge(s, r)
    case Rejected(code, sender, target) => s.(events := s.events + IfUp(r.journalUp, SendFailed(r.project, sender, target, code)))
    case Repeated(sender, m) => s.(events := s.events + [MessageSent(r.project, sender, r.to, m.id, true)])
    case Accepted(sender) =>
      s.(messages := s.messages + [NewMessage(r, sender)], events := s.events + [MessageSent(r.project, sender, r.to, r.newId, false)])
  }

  function SendReply(s: State, r: Request): Reply
    requires r.Send?
  {
    match Judge(s, r)
    case Rejected(code, _, _) => Failed(code)
    case Repeated(_, m) => Sent(Public(m), true)
    case Accepted(sender) => Sent(Public(NewMessage(r, sender)), false)
  }

  function NewAgent(r: Request): Agent
    requires r.Register?
  {
    Agent(r.newId, r.project, r.digest, r.profile, r.now)
  }

  function AfterRegister(s: State, r: Request): State
    requires r.Register?
  {
    match First(s.agents, RegisteredAs(r.project, r.digest))
    case None => s.(agents := s.agents + [NewAgent(r)], events := s.events + [AgentRegistered(r.project, r.newId)])
    case Some(row) =>
      if row.profile == r.profile
      then s.(agents := Seen(s.agents, r.project, row.id, r.now), events := s.events + [AgentRegistered(r.project, row.id)])
      else s.(events := s.events + IfUp(r.journalUp, RegistrationFailed(r.project, RegistrationConflict)))
  }

  function RegisterReply(s: State, r: Request): Reply
    requires r.Register?
  {
    match First(s.agents, RegisteredAs(r.project, r.digest))
    case None => Registered(NewAgent(r), Signed(r.project, r.newId, r.digest))
    case Some(row) =>
      if row.profile == r.profile then Registered(row.(lastSeenAt := r.now), Signed(r.project, row.id, r.digest))
      else Failed(RegistrationConflict)
  }

  /** The unread messages that are left once the acknowledged ones are marked. */
  function Remaining(s: State, r: Request, caller: AgentId): seq<Message>
    requires r.Sync?
  {
    Where(Acknowledged(s.messages, r.project, caller, r.acknowledge, r.now), UnreadBy(r.project, caller))
  }

  function NewlyAcknowledged(s: State, r: Request, caller: AgentId): seq<Message>
    requires r.Sync?
  {
    Where(s.messages, AcknowledgedBy(r.project, caller, r.acknowledge))
  }

  function AcknowledgedEvents(project: ProjectId, caller: AgentId, rows: seq<Message>): seq<Event> {
    if rows == [] then []
    else
      AcknowledgedEvents(project, caller, rows[..|rows| - 1]) + [MessageAcknowledged(project, caller, rows[|rows| - 1].id)]
  }

  function SyncedEvents(r: Request, caller: AgentId, delivered: nat, acknowledged: nat): seq<Event>
    requires r.Sync?
  {
    if delivered > 0 || acknowledged > 0 then [AgentSynced(r.project, caller, delivered, acknowledged, r.limit)] else []
  }

  /** The transaction of a poll, whose caller is known. */
  function AfterSyncBy(s: State, r: Request, caller: AgentId): State
    requires r.Sync?
  {
    var acknowledged := NewlyAcknowledged(s, r, caller);
    var delivered := Least(|Remaining(s, r, caller)|, r.limit);
    State(
      Seen(s.agents, r.project, caller, r.now),
      Acknowledged(s.messages, r.project, caller, r.acknowledge, r.now),
      s.events + SyncedEvents(r, caller, delivered, |acknowledged|) + AcknowledgedEvents(r.project, caller, acknowledged))
  }

  function SyncReplyTo(s: State, r: Request, caller: AgentId): Reply
    requires r.Sync? && First(s.agents, AgentIs(r.project, caller)).Some?
  {
    var remaining := Remaining(s, r, caller);
    Synced(
      First(s.agents, AgentIs(r.project, caller)).value.(lastSeenAt := r.now),
      |NewlyAcknowledged(s, r, caller)|,
      PublicAll(remaining[..Least(|remaining|, r.limit)]),
      |remaining| > r.limit)
  }

  function AfterSync(s: State, r: Request): State
    requires r.Sync?
  {
    match Authenticate(s.agents, r.project, r.token)
    case None => s.(events := s.events + IfUp(r.journalUp, SyncFailed(r.project, AgentAuthInvalid)))
    case Some(caller) => AfterSyncBy(s, r, caller)
  }

  function SyncReply(s: State, r: Request): Reply
    requires r.Sync?
  {
    match Authenticate(s.agents, r.project, r.token)
    case None => Failed(AgentAuthInvalid)
    case Some(caller) => SyncReplyTo(s, r, caller)
  }

  function After(s: State, r: Request): State {
    match r
    case Register(_, _, _, _, _, _) => AfterRegister(s, r)
    case Send(_, _, _, _, _, _, _, _, _) => AfterSend(s, r)
    case Sync(_, _, _, _, _, _) => AfterSync(s, r)
  }

  function ReplyTo(s: State, r: Request): Reply {
    match r
    case Register(_, _, _, _, _, _) => RegisterReply(s, r)
    case Send(_, _, _, _, _, _, _, _, _) => SendReply(s, r)
    case Sync(_, _, _, _, _, _) => SyncReply(s, r)
  }

  // ----- The service -----

  class Service {
    var agents: seq<Agent>
    var messages: seq<Message>
    var events: seq<Event>

    ghost function Contents(): State
      reads this
    {
      State(agents, messages, events)
    }

    constructor ()
      ensures Contents() == State([], [], [])
    {
      agents, messages, events := [], [], [];
    }

    method RecordBestEffort(journalUp: bool, e: Event)
      modifies this`events
      ensures events == old(events) + IfUp(journalUp, e)
    {
      if journalUp {
        events := events + [e];
      }
    }

    method RegisterAgent(r: Request) returns (reply: Reply)
      requires r.Register?
      modifies this
      ensures Contents() == After(old(Contents()), r) && reply == ReplyTo(old(Contents()), r)
    {
      var existing := First(agents, RegisteredAs(r.project, r.digest));
      var agent;
      if existing.None? {
        agent := Agent(r.newId, r.project, r.digest, r.profile, r.now);
        agents := agents + [agent];
      } else {
        agent := existing.value;
        if agent.profile != r.profile {
          RecordBestEffort(r.journalUp, RegistrationFailed(r.project, RegistrationConflict));
          return Failed(RegistrationConflict);
        }
        agents := Seen(agents, r.project, agent.id, r.now);
        agent := agent.(lastSeenAt := r.now);
      }
      events := events + [AgentRegistered(r.project, agent.id)];
      return Registered(agent, Signed(r.project, agent.id, r.digest));
    }

    method SendMessage(r: Request) returns (reply: Reply)
      requires r.Send?
      modifies this
      ensures Contents() == After(old(Contents()), r) && reply == ReplyTo(old(Contents()), r)
    {
      var sender := Authenticate(agents, r.project, r.token);
      if sender.None? {
        RecordBestEffort(r.journalUp, SendFailed(r.project, None, None, AgentAuthInvalid));
        return Failed(AgentAuthInvalid);
      }
      if sender.value == r.to {
        RecordBestEffort(r.journalUp, SendFailed(r.project, sender, None, TargetAgentInvalid));
        return Failed(TargetAgentInvalid);
      }
      var target := First(agents, AgentIs(r.project, r.to));
      if target.None? {
        RecordBestEffort(r.journalUp, SendFailed(r.project, sender, None, TargetAgentInvalid));
        return Failed(TargetAgentInvalid);
      }
      var persisted := First(messages, KeyedBy(r.project, sender.value, r.key));
      var deduplicated := persisted.Some?;
      if !deduplicated {
        persisted := Some(Message(
          r.newId, r.newSequence, r.project, sender.value, target.value.id, r.text, r.key, r.now, None));
        messages := messages + [persisted.value];
      } else if persisted.value.recipient != target.value.id || persisted.value.text != r.text {
        RecordBestEffort(r.journalUp, SendFailed(r.project, sender, Some(target.value.id), IdempotencyConflict));
        return Failed(IdempotencyConflict);
      }
      events := events + [MessageSent(r.project, sender.value, target.value.id, persisted.value.id, deduplicated)];
      return Sent(Public(persisted.value), deduplicated);
    }

    method SyncAgent(r: Request) returns (reply: Reply)
      requires r.Sync?
      modifies this
      ensures Contents() == After(old(Contents()), r) && reply == ReplyTo(old(Contents()), r)
    {
      var caller := Authenticate(agents, r.project, r.token);
      if caller.None? {
        RecordBestEffort(r.journalUp, SyncFailed(r.project, AgentAuthInvalid));
        return Failed(AgentAuthInvalid);
      }
      reply := SyncTransaction(r, caller.value);
    }

    method RecordAcknowledgements(project: ProjectId, id: AgentId, acknowledged: seq<Message>)
      modifies this`events
      ensures events == old(events) + AcknowledgedEvents(project, id, acknowledged)
    {
      for k := 0 to |acknowledged|
        invariant events == old(events) + AcknowledgedEvents(project, id, acknowledged[..k])
      {
        assert acknowledged[..k + 1][..k] == acknowledged[..k];
        events := events + [MessageAcknowledged(project, id, acknowledged[k].id)];
      }
      assert acknowledged[..|acknowledged|] == acknowledged;
    }

    method SyncTransaction(r: Request, id: AgentId) returns (reply: Reply)
      requires r.Sync? && First(agents, AgentIs(r.project, id)).Some?
      modifies this
      ensures Contents() == AfterSyncBy(old(Contents()), r, id) && reply == SyncReplyTo(old(Contents()), r, id)
    {
      var acknowledged := Where(messages, AcknowledgedBy(r.project, id, r.acknowledge));
      messages := Acknowledged(messages, r.project, id, r.acknowledge, r.now);
      var refreshed := First(agents, AgentIs(r.project, id)).value.(lastSeenAt := r.now);
      agents := Seen(agents, r.project, id, r.now);
      var unread := Where(messages, UnreadBy(r.project, id));
      var rows := unread[..Least(|unread|, r.limit + 1)];
      var delivered := rows[..Least(|rows|, r.limit)];
      assert delivered == unread[..Least(|unread|, r.limit)];
      if |delivered| > 0 || |acknowledged| > 0 {
        events := events + [AgentSynced(r.project, id, |delivered|, |acknowledged|, r.limit)];
      }
      RecordAcknowledgements(r.project, id, acknowledged);
      return Synced(refreshed, |acknowledged|, PublicAll(delivered), |rows| > r.limit);
    }
  }
}
