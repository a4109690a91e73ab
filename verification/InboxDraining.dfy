/** A client that acknowledges what the previous poll delivered receives its inbox in order, each message exactly once,
    whatever the other clients do meanwhile. */
module InboxDraining {
  import opened Wrappers
  import opened Mailbox
  import opened MailboxHistory

  function Inbox(s: State, project: ProjectId, agent: AgentId): seq<Message> {
    Where(s.messages, UnreadBy(project, agent))
  }

  // ----- One poll -----

  function Named(ids: seq<MessageId>): Message -> bool {
    (row: Message) => row.id in ids
  }

  function NotNamed(ids: seq<MessageId>): Message -> bool {
    (row: Message) => row.id !in ids
  }

  lemma RowAfterSync(messages: seq<Message>, project: ProjectId, agent: AgentId, ids: seq<MessageId>, now: int, k: nat)
    requires k < |messages|
    ensures
      var m, m' := messages[k], Acknowledged(messages, project, agent, ids, now)[k];
      && (UnreadBy(project, agent)(m') <==> UnreadBy(project, agent)(m) && NotNamed(ids)(m))
      && (UnreadBy(project, agent)(m') ==> m' == m)
  {
    var m := messages[k];
    assert AcknowledgedBy(project, agent, ids)(m) <==> UnreadBy(project, agent)(m) && !NotNamed(ids)(m);
  }

  lemma {:induction false} UnreadAfterSync(
    messages: seq<Message>, project: ProjectId, agent: AgentId, ids: seq<MessageId>, now: int)
    ensures Where(Acknowledged(messages, project, agent, ids, now), UnreadBy(project, agent))
         == Where(Where(messages, UnreadBy(project, agent)), NotNamed(ids))
  {
    var after := Acknowledged(messages, project, agent, ids, now);
    if messages == [] {
      assert after == [];
    } else {
      var k := |messages| - 1;
      var rest, last := messages[..k], messages[k];
      UnreadAfterSync(rest, project, agent, ids, now);
      assert after[..k] == Acknowledged(rest, project, agent, ids, now);
      RowAfterSync(messages, project, agent, ids, now, k);
      WhereOfAppended(Where(rest, UnreadBy(project, agent)), last, NotNamed(ids));
      if !UnreadBy(project, agent)(last) {
        assert Where(messages, UnreadBy(project, agent)) == Where(rest, UnreadBy(project, agent));
      }
    }
  }

  lemma {:induction false} AcknowledgedAreUnread(
    messages: seq<Message>, project: ProjectId, agent: AgentId, ids: seq<MessageId>)
    ensures Where(messages, AcknowledgedBy(project, agent, ids)) == Where(Where(messages, UnreadBy(project, agent)), Named(ids))
  {
    if messages != [] {
      var rest, last := messages[..|messages| - 1], messages[|messages| - 1];
      AcknowledgedAreUnread(rest, project, agent, ids);
      WhereOfAppended(Where(rest, UnreadBy(project, agent)), last, Named(ids));
      if !UnreadBy(project, agent)(last) {
        assert Where(messages, UnreadBy(project, agent)) == Where(rest, UnreadBy(project, agent));
      }
    }
  }

  lemma {:induction false} WhereOfJoined<T>(rows: seq<T>, more: seq<T>, p: T -> bool)
    ensures Where(rows + more, p) == Where(rows, p) + Where(more, p)
  {
    if more == [] {
      assert rows + more == rows;
    } else {
      WhereOfJoined(rows, more[..|more| - 1], p);
      assert (rows + more)[..|rows + more| - 1] == rows + more[..|more| - 1];
    }
  }

  lemma {:induction false} WhereOfAll<T>(rows: seq<T>, p: T -> bool)
    requires forall k :: 0 <= k < |rows| ==> p(rows[k])
    ensures Where(rows, p) == rows
  {
    if rows != [] {
      WhereOfAll(rows[..|rows| - 1], p);
    }
  }

  lemma {:induction false} WhereOfNone<T>(rows: seq<T>, p: T -> bool)
    requires forall k :: 0 <= k < |rows| ==> !p(rows[k])
    ensures Where(rows, p) == []
  {
    if rows != [] {
      WhereOfNone(rows[..|rows| - 1], p);
    }
  }

  lemma OnlyPrefixIsNamed(pending: seq<Message>, rest: seq<Message>)
    requires DistinctIds(pending + rest)
    ensures forall k :: 0 <= k < |pending| ==> pending[k].id in Ids(pending)
    ensures forall k :: 0 <= k < |rest| ==> rest[k].id !in Ids(pending)
  {
    var all, ids := pending + rest, Ids(pending);
    forall k | 0 <= k < |pending|
      ensures pending[k].id in ids
    {
      assert ids[k] == pending[k].id;
    }
    forall k, j | 0 <= k < |rest| && 0 <= j < |pending|
      ensures rest[k].id != ids[j]
    {
      assert all[|pending| + k] == rest[k] && all[j] == pending[j];
    }
  }

  lemma PrefixIsNamed(pending: seq<Message>, rest: seq<Message>)
    requires DistinctIds(pending + rest)
    ensures Where(pending + rest, Named(Ids(pending))) == pending && Where(pending + rest, NotNamed(Ids(pending))) == rest
  {
    var ids := Ids(pending);
    OnlyPrefixIsNamed(pending, rest);
    assert Where(pending, Named(ids)) == pending by { WhereOfAll(pending, Named(ids)); }
    assert Where(rest, Named(ids)) == [] by { WhereOfNone(rest, Named(ids)); }
    assert Where(pending, NotNamed(ids)) == [] by { WhereOfNone(pending, NotNamed(ids)); }
    assert Where(rest, NotNamed(ids)) == rest by { WhereOfAll(rest, NotNamed(ids)); }
    WhereOfJoined(pending, rest, Named(ids));
    WhereOfJoined(pending, rest, NotNamed(ids));
  }

  /** A poll that acknowledges the first part of the inbox delivers the beginning of the other part, says whether more
      is left, and leaves that part in the inbox. */
  lemma PollDelivers(s: State, r: Request, caller: AgentId, pending: seq<Message>, rest: seq<Message>)
    requires r.Sync? && Authenticate(s.agents, r.project, r.token) == Some(caller) && DistinctIds(s.messages)
    requires Inbox(s, r.project, caller) == pending + rest && r.acknowledge == Ids(pending)
    ensures Inbox(After(s, r), r.project, caller) == rest
    ensures
      var reply := ReplyTo(s, r);
      && reply.Synced? && reply.acknowledged == |pending|
      && reply.messages == PublicAll(rest[..Least(|rest|, r.limit)])
      && (reply.hasMore <==> |rest| > r.limit)
  {
    WhereIsDistinct(s.messages, UnreadBy(r.project, caller));
    UnreadAfterSync(s.messages, r.project, caller, r.acknowledge, r.now);
    AcknowledgedAreUnread(s.messages, r.project, caller, r.acknowledge);
    PrefixIsNamed(pending, rest);
  }

  // ----- Mail that arrives -----

  function AddressedTo(project: ProjectId, agent: AgentId): Message -> bool {
    (row: Message) => row.project == project && row.recipient == agent
  }

  function Mail(messages: seq<Message>, project: ProjectId, agent: AgentId): seq<PublicMessage> {
    PublicAll(Where(messages, AddressedTo(project, agent)))
  }

  /** Rows are only added; those that were there change nothing but their acknowledgement. */
  ghost predicate SameButAcks(rows: seq<Message>, later: seq<Message>) {
    && |rows| == |later|
    && forall k :: 0 <= k < |rows| ==> later[k] == rows[k].(acknowledgedAt := later[k].acknowledgedAt)
  }

  ghost predicate Extends(s: State, s': State) {
    && |s.messages| <= |s'.messages|
    && forall k :: 0 <= k < |s.messages| ==> s'.messages[k] == s.messages[k].(acknowledgedAt := s'.messages[k].acknowledgedAt)
  }

  /** The messages to the agent that came between the two states. */
  function Arrivals(s: State, s': State, project: ProjectId, agent: AgentId): seq<PublicMessage>
    requires |s.messages| <= |s'.messages|
  {
    Mail(s'.messages[|s.messages|..], project, agent)
  }

  lemma {:induction false} MailIgnoresAcks(rows: seq<Message>, later: seq<Message>, project: ProjectId, agent: AgentId)
    requires SameButAcks(rows, later)
    ensures Mail(later, project, agent) == Mail(rows, project, agent)
  {
    if rows != [] {
      var k := |rows| - 1;
      MailIgnoresAcks(rows[..k], later[..k], project, agent);
      assert AddressedTo(project, agent)(later[k]) <==> AddressedTo(project, agent)(rows[k]);
      PublicOfJoined(Where(rows[..k], AddressedTo(project, agent)), [rows[k]]);
      PublicOfJoined(Where(later[..k], AddressedTo(project, agent)), [later[k]]);
      assert PublicAll([rows[k]]) == PublicAll([later[k]]);
      PublicOfJoined(Where(rows[..k], AddressedTo(project, agent)), []);
      PublicOfJoined(Where(later[..k], AddressedTo(project, agent)), []);
    }
  }

  lemma PublicOfJoined(rows: seq<Message>, more: seq<Message>)
    ensures PublicAll(rows + more) == PublicAll(rows) + PublicAll(more)
  {
  }

  lemma MailOfJoined(rows: seq<Message>, more: seq<Message>, project: ProjectId, agent: AgentId)
    ensures Mail(rows + more, project, agent) == Mail(rows, project, agent) + Mail(more, project, agent)
  {
    WhereOfJoined(rows, more, AddressedTo(project, agent));
    PublicOfJoined(Where(rows, AddressedTo(project, agent)), Where(more, AddressedTo(project, agent)));
  }

  lemma StepExtends(s: State, r: Request)
    ensures Extends(s, After(s, r))
  {
    forall k | 0 <= k < |s.messages|
      ensures After(s, r).messages[k] == s.messages[k].(acknowledgedAt := After(s, r).messages[k].acknowledgedAt)
    {
      AcknowledgementIsTheRecipients(s, r, k);
    }
  }

  lemma ArrivalsAddUp(s: State, s1: State, s2: State, project: ProjectId, agent: AgentId)
    requires Extends(s, s1) && Extends(s1, s2)
    ensures Extends(s, s2)
    ensures Arrivals(s, s2, project, agent) == Arrivals(s, s1, project, agent) + Arrivals(s1, s2, project, agent)
  {
    var n, n1 := |s.messages|, |s1.messages|;
    forall k | 0 <= k < n
      ensures s2.messages[k] == s.messages[k].(acknowledgedAt := s2.messages[k].acknowledgedAt)
    {
      assert s1.messages[k] == s1.messages[..n][k] && s2.messages[k] == s2.messages[..n1][k];
    }
    assert s2.messages[n..] == s2.messages[n..n1] + s2.messages[n1..];
    MailOfJoined(s2.messages[n..n1], s2.messages[n1..], project, agent);
    forall k | 0 <= k < n1 - n
      ensures s2.messages[n..n1][k] == s1.messages[n..][k].(acknowledgedAt := s2.messages[n..n1][k].acknowledgedAt)
    {
      assert s2.messages[..n1][n + k] == s2.messages[n..n1][k];
    }
    MailIgnoresAcks(s1.messages[n..], s2.messages[n..n1], project, agent);
  }

  // ----- Requests of others -----

  /** Not a poll by this caller. */
  predicate OfAnother(q: Request, project: ProjectId, caller: AgentId) {
    q.Sync? && q.token.Signed? ==> q.project != project || q.token.agent != caller
  }

  lemma {:induction false} WhereOfChanged(rows: seq<Message>, changed: seq<Message>, p: Message -> bool)
    requires |rows| == |changed|
    requires forall k :: 0 <= k < |rows| ==> (p(rows[k]) <==> p(changed[k])) && (p(rows[k]) ==> changed[k] == rows[k])
    ensures Where(changed, p) == Where(rows, p)
  {
    if rows != [] {
      WhereOfChanged(rows[..|rows| - 1], changed[..|rows| - 1], p);
    }
  }

  lemma {:induction false} WhereOfEquivalent(rows: seq<Message>, p: Message -> bool, q: Message -> bool)
    requires forall k :: 0 <= k < |rows| ==> (p(rows[k]) <==> q(rows[k]))
    ensures Where(rows, p) == Where(rows, q)
  {
    if rows != [] {
      WhereOfEquivalent(rows[..|rows| - 1], p, q);
    }
  }

  lemma OthersLeaveRow(s: State, q: Request, project: ProjectId, caller: AgentId, k: nat)
    requires OfAnother(q, project, caller) && k < |s.messages|
    ensures
      var row, after := s.messages[k], After(s, q).messages[k];
      && (UnreadBy(project, caller)(row) <==> UnreadBy(project, caller)(after))
      && (UnreadBy(project, caller)(row) ==> after == row)
  {
    AcknowledgementIsTheRecipients(s, q, k);
    assert AcknowledgesNow(s, q, s.messages[k]) ==> q.token.agent == s.messages[k].recipient;
  }

  lemma NewRowsAreUnread(s: State, q: Request, k: nat)
    requires |s.messages| <= k < |After(s, q).messages|
    ensures After(s, q).messages[k].acknowledgedAt.None?
  {
  }

  lemma OthersOnlyAppend(s: State, q: Request, project: ProjectId, caller: AgentId) returns (arrived: seq<Message>)
    requires OfAnother(q, project, caller)
    ensures Extends(s, After(s, q))
    ensures Inbox(After(s, q), project, caller) == Inbox(s, project, caller) + arrived
    ensures PublicAll(arrived) == Arrivals(s, After(s, q), project, caller)
  {
    StepExtends(s, q);
    var after, n, p := After(s, q).messages, |s.messages|, UnreadBy(project, caller);
    var kept, new' := after[..n], after[n..];
    forall k | 0 <= k < n
      ensures (p(s.messages[k]) <==> p(kept[k])) && (p(s.messages[k]) ==> kept[k] == s.messages[k])
    {
      OthersLeaveRow(s, q, project, caller, k);
    }
    WhereOfChanged(s.messages, kept, p);
    forall k | 0 <= k < |new'|
      ensures p(new'[k]) <==> AddressedTo(project, caller)(new'[k])
    {
      NewRowsAreUnread(s, q, n + k);
    }
    WhereOfEquivalent(new', p, AddressedTo(project, caller));
    arrived := Where(new', p);
    WhereOfParts(after, kept, new', p);
  }

  lemma WhereOfParts(rows: seq<Message>, first: seq<Message>, second: seq<Message>, p: Message -> bool)
    requires rows == first + second
    ensures Where(rows, p) == Where(first, p) + Where(second, p)
  {
    WhereOfJoined(first, second, p);
  }

  lemma {:induction false} RunOfOthers(s: State, others: seq<Request>, project: ProjectId, caller: AgentId)
    returns (arrived: seq<Message>)
    requires forall q :: q in others ==> OfAnother(q, project, caller)
    ensures Extends(s, Run(s, others))
    ensures Inbox(Run(s, others), project, caller) == Inbox(s, project, caller) + arrived
    ensures PublicAll(arrived) == Arrivals(s, Run(s, others), project, caller)
    ensures others == [] ==> arrived == []
    decreases |others|
  {
    if others == [] {
      arrived := [];
      NothingArrives(s, s, project, caller);
    } else {
      var s1, s2 := After(s, others[0]), Run(After(s, others[0]), others[1..]);
      var a := OthersOnlyAppend(s, others[0], project, caller);
      var b := RunOfOthers(s1, others[1..], project, caller);
      arrived := a + b;
      Associate(Inbox(s, project, caller), a, b);
      assert PublicAll(arrived) == PublicAll(a) + PublicAll(b) by { PublicOfJoined(a, b); }
      ArrivalsAddUp(s, s1, s2, project, caller);
    }
  }

  lemma NothingArrives(s: State, s': State, project: ProjectId, caller: AgentId)
    requires |s.messages| == |s'.messages|
    ensures Arrivals(s, s', project, caller) == []
  {
    assert s'.messages[|s.messages|..] == [];
  }

  lemma {:induction false} StaysAuthenticated(s: State, rs: seq<Request>, project: ProjectId, token: Token)
    requires Authenticate(s.agents, project, token).Some?
    ensures Authenticate(Run(s, rs).agents, project, token) == Authenticate(s.agents, project, token)
    decreases |rs|
  {
    if rs != [] {
      AgentsAreKept(s, rs[0], project, token.agent);
      StaysAuthenticated(After(s, rs[0]), rs[1..], project, token);
    }
  }

  /** A poll authenticates before its transaction. Whatever happens in between, the transaction does what the whole poll
      would do at its moment. */
  lemma PollMayAuthenticateFirst(s: State, rs: seq<Request>, r: Request, caller: AgentId)
    requires r.Sync? && Authenticate(s.agents, r.project, r.token) == Some(caller)
    ensures
      var t := Run(s, rs);
      && First(t.agents, AgentIs(r.project, caller)).Some?
      && After(t, r) == AfterSyncBy(t, r, caller) && ReplyTo(t, r) == SyncReplyTo(t, r, caller)
  {
    StaysAuthenticated(s, rs, r.project, r.token);
  }

  // ----- Draining -----

  /** The requests of other clients, and then the caller's next poll. */
  datatype Round = Round(others: seq<Request>, limit: nat, now: int, journalUp: bool)

  datatype Client = Client(project: ProjectId, token: Token)

  function PublicIds(messages: seq<PublicMessage>): seq<MessageId> {
    seq(|messages|, k requires 0 <= k < |messages| => messages[k].id)
  }

  function Delivered(reply: Reply): seq<PublicMessage> {
    if reply.Synced? then reply.messages else []
  }

  /** Each poll acknowledges what the previous one delivered. */
  function Poll(c: Client, round: Round, delivered: seq<PublicMessage>): Request {
    Sync(c.project, c.token, PublicIds(delivered), round.limit, round.now, round.journalUp)
  }

  function RoundEnd(s: State, c: Client, round: Round, delivered: seq<PublicMessage>): State {
    After(Run(s, round.others), Poll(c, round, delivered))
  }

  function RoundReply(s: State, c: Client, round: Round, delivered: seq<PublicMessage>): Reply {
    ReplyTo(Run(s, round.others), Poll(c, round, delivered))
  }

  function DrainReplies(s: State, c: Client, rounds: seq<Round>, delivered: seq<PublicMessage>): seq<Reply>
    decreases |rounds|
  {
    if rounds == [] then []
    else
      var reply := RoundReply(s, c, rounds[0], delivered);
      [reply] + DrainReplies(RoundEnd(s, c, rounds[0], delivered), c, rounds[1..], Delivered(reply))
  }

  function DrainEnd(s: State, c: Client, rounds: seq<Round>, delivered: seq<PublicMessage>): State
    decreases |rounds|
  {
    if rounds == [] then s
    else
      DrainEnd(RoundEnd(s, c, rounds[0], delivered), c, rounds[1..], Delivered(RoundReply(s, c, rounds[0], delivered)))
  }

  function AllDelivered(replies: seq<Reply>): seq<PublicMessage> {
    if replies == [] then [] else Delivered(replies[0]) + AllDelivered(replies[1..])
  }

  ghost predicate RoundsOk(s: State, c: Client, caller: AgentId, rounds: seq<Round>, delivered: seq<PublicMessage>)
    decreases |rounds|
  {
    rounds == []
    || (&& FreshRun(s, rounds[0].others)
        && (forall q :: q in rounds[0].others ==> OfAnother(q, c.project, caller))
        && RoundsOk(RoundEnd(s, c, rounds[0], delivered), c, caller, rounds[1..], Delivered(RoundReply(s, c, rounds[0], delivered))))
  }

  /** The caller's inbox begins with what the last poll delivered; `rest` is still to come. */
  ghost predicate Waiting(s: State, c: Client, caller: AgentId, pending: seq<Message>, rest: seq<Message>) {
    && DistinctIds(s.messages) && Authenticate(s.agents, c.project, c.token) == Some(caller)
    && Inbox(s, c.project, caller) == pending + rest
  }

  lemma StepKeepsDistinct(s: State, r: Request)
    requires DistinctIds(s.messages) && Fresh(s, r)
    ensures DistinctIds(After(s, r).messages)
  {
    StepExtends(s, r);
    var rows, after := s.messages, After(s, r).messages;
    assert forall k :: 0 <= k < |rows| ==> after[k].id == rows[k].id by {
      assert forall k :: 0 <= k < |rows| ==> after[..|rows|][k] == after[k];
    }
  }

  lemma {:induction false} RunKeepsDistinct(s: State, rs: seq<Request>)
    requires DistinctIds(s.messages) && FreshRun(s, rs)
    ensures DistinctIds(Run(s, rs).messages)
    decreases |rs|
  {
    if rs != [] {
      StepKeepsDistinct(s, rs[0]);
      RunKeepsDistinct(After(s, rs[0]), rs[1..]);
    }
  }

  /** A poll delivers the next batch of what is still to come. */
  lemma PollTakesBatch(t: State, c: Client, caller: AgentId, r: Request, pending: seq<Message>, rest: seq<Message>)
    returns (batch: seq<Message>, left: seq<Message>)
    requires Waiting(t, c, caller, pending, rest)
    requires r.Sync? && r.project == c.project && r.token == c.token && r.acknowledge == Ids(pending)
    ensures rest == batch + left && |batch| == Least(|rest|, r.limit)
    ensures Waiting(After(t, r), c, caller, batch, left) && Extends(t, After(t, r))
    ensures Arrivals(t, After(t, r), c.project, caller) == []
    ensures
      var reply := ReplyTo(t, r);
      reply.Synced? && reply.messages == PublicAll(batch) && (reply.hasMore <==> left != [])
  {
    batch, left := rest[..Least(|rest|, r.limit)], rest[Least(|rest|, r.limit)..];
    PollDelivers(t, r, caller, pending, rest);
    StepKeepsDistinct(t, r);
    AgentsAreKept(t, r, c.project, c.token.agent);
    StepExtends(t, r);
    NothingArrives(t, After(t, r), c.project, caller);
  }

  lemma OthersKeepWaiting(
    s: State, c: Client, caller: AgentId, others: seq<Request>, pending: seq<Message>, rest: seq<Message>)
    returns (arrived: seq<Message>)
    requires Waiting(s, c, caller, pending, rest) && FreshRun(s, others)
    requires forall q :: q in others ==> OfAnother(q, c.project, caller)
    ensures Waiting(Run(s, others), c, caller, pending, rest + arrived) && Extends(s, Run(s, others))
    ensures PublicAll(arrived) == Arrivals(s, Run(s, others), c.project, caller)
    ensures others == [] ==> arrived == []
  {
    arrived := RunOfOthers(s, others, c.project, caller);
    RunKeepsDistinct(s, others);
    StaysAuthenticated(s, others, c.project, c.token);
    assert pending + rest + arrived == pending + (rest + arrived);
  }

  lemma RoundDelivers(s: State, c: Client, caller: AgentId, round: Round, pending: seq<Message>, rest: seq<Message>)
    returns (batch: seq<Message>, left: seq<Message>)
    requires Waiting(s, c, caller, pending, rest) && FreshRun(s, round.others)
    requires forall q :: q in round.others ==> OfAnother(q, c.project, caller)
    ensures
      var end, reply := RoundEnd(s, c, round, PublicAll(pending)), RoundReply(s, c, round, PublicAll(pending));
      && Extends(s, end) && Waiting(end, c, caller, batch, left)
      && PublicAll(batch) + PublicAll(left) == PublicAll(rest) + Arrivals(s, end, c.project, caller)
      && reply.Synced? && Delivered(reply) == PublicAll(batch) && (reply.hasMore <==> left != [])
    ensures round.others == [] ==> batch + left == rest && |batch| == Least(|rest|, round.limit)
  {
    var arrived := OthersKeepWaiting(s, c, caller, round.others, pending, rest);
    var t, r := Run(s, round.others), Poll(c, round, PublicAll(pending));
    assert PublicIds(PublicAll(pending)) == Ids(pending);
    batch, left := PollTakesBatch(t, c, caller, r, pending, rest + arrived);
    ArrivalsAddUp(s, t, After(t, r), c.project, caller);
    PublicOfJoined(rest, arrived);
    PublicOfJoined(batch, left);
  }

  lemma FirstReply(s: State, c: Client, rounds: seq<Round>, delivered: seq<PublicMessage>)
    requires rounds != []
    ensures
      var reply := RoundReply(s, c, rounds[0], delivered);
      var replies := DrainReplies(RoundEnd(s, c, rounds[0], delivered), c, rounds[1..], Delivered(reply));
      && DrainReplies(s, c, rounds, delivered) == [reply] + replies
      && AllDelivered(DrainReplies(s, c, rounds, delivered)) == Delivered(reply) + AllDelivered(replies)
  {
    var reply := RoundReply(s, c, rounds[0], delivered);
    var replies := DrainReplies(RoundEnd(s, c, rounds[0], delivered), c, rounds[1..], Delivered(reply));
    assert ([reply] + replies)[1..] == replies;
  }

  lemma Regroup<T>(batch: seq<T>, later: seq<T>, left: seq<T>, rest1: seq<T>, rest: seq<T>, now: seq<T>, then': seq<T>)
    requires batch + rest1 == rest + now && later + left == rest1 + then'
    ensures (batch + later) + left == rest + (now + then')
  {
    assert (batch + later) + left == batch + (later + left);
    assert batch + (rest1 + then') == (batch + rest1) + then';
    assert (rest + now) + then' == rest + (now + then');
  }

  /** Over any number of rounds, whatever the other clients do in between, what has been delivered and what is still
      undelivered make up the inbox of the beginning followed by all that arrived since: in order, nothing lost and
      nothing delivered twice. */
  lemma {:induction false} DrainDelivers(
    s: State, c: Client, caller: AgentId, rounds: seq<Round>, pending: seq<Message>, rest: seq<Message>)
    returns (pending': seq<Message>, left: seq<Message>)
    requires Waiting(s, c, caller, pending, rest) && RoundsOk(s, c, caller, rounds, PublicAll(pending))
    ensures
      var end, replies := DrainEnd(s, c, rounds, PublicAll(pending)), DrainReplies(s, c, rounds, PublicAll(pending));
      && Extends(s, end) && Waiting(end, c, caller, pending', left)
      && AllDelivered(replies) + PublicAll(left) == PublicAll(rest) + Arrivals(s, end, c.project, caller)
    decreases |rounds|
  {
    if rounds == [] {
      pending', left := pending, rest;
      NothingArrives(s, s, c.project, caller);
    } else {
      var s1 := RoundEnd(s, c, rounds[0], PublicAll(pending));
      var batch, rest1 := RoundDelivers(s, c, caller, rounds[0], pending, rest);
      FirstReply(s, c, rounds, PublicAll(pending));
      pending', left := DrainDelivers(s1, c, caller, rounds[1..], batch, rest1);
      var end, replies := DrainEnd(s1, c, rounds[1..], PublicAll(batch)), DrainReplies(s1, c, rounds[1..], PublicAll(batch));
      ArrivalsAddUp(s, s1, end, c.project, caller);
      Regroup(PublicAll(batch), AllDelivered(replies), PublicAll(left), PublicAll(rest1), PublicAll(rest),
              Arrivals(s, s1, c.project, caller), Arrivals(s1, end, c.project, caller));
    }
  }

  // ----- Order -----

  ghost predicate Ascending(messages: seq<PublicMessage>) {
    forall i, j :: 0 <= i < j < |messages| ==> messages[i].sequence < messages[j].sequence
  }

  lemma {:induction false} WhereAscends(rows: seq<Message>, p: Message -> bool)
    requires Ascending(PublicAll(rows))
    ensures Ascending(PublicAll(Where(rows, p)))
    ensures forall k :: 0 <= k < |Where(rows, p)| ==> Where(rows, p)[k] in rows
  {
    if rows != [] {
      var rest, last := rows[..|rows| - 1], rows[|rows| - 1];
      assert forall k :: 0 <= k < |rows| ==> PublicAll(rows)[k].sequence == rows[k].sequence;
      assert forall k :: 0 <= k < |rest| ==> PublicAll(rest)[k].sequence == rows[k].sequence;
      WhereAscends(rest, p);
      forall k | 0 <= k < |Where(rest, p)|
        ensures Where(rest, p)[k].sequence < last.sequence
      {
        var i :| 0 <= i < |rest| && rest[i] == Where(rest, p)[k];
        assert PublicAll(rows)[i].sequence < PublicAll(rows)[|rows| - 1].sequence;
      }
    }
  }

  lemma {:induction false} RunKeepsMessages(s: State, rs: seq<Request>)
    requires MessagesOk(s.messages) && FreshRun(s, rs)
    ensures MessagesOk(Run(s, rs).messages)
    decreases |rs|
  {
    if rs != [] {
      StepKeepsMessages(s, rs[0]);
      RunKeepsMessages(After(s, rs[0]), rs[1..]);
    }
  }

  lemma {:induction false} DrainKeepsMessages(
    s: State, c: Client, caller: AgentId, rounds: seq<Round>, delivered: seq<PublicMessage>)
    requires MessagesOk(s.messages) && RoundsOk(s, c, caller, rounds, delivered)
    ensures MessagesOk(DrainEnd(s, c, rounds, delivered).messages)
    decreases |rounds|
  {
    if rounds != [] {
      var s1, reply := RoundEnd(s, c, rounds[0], delivered), RoundReply(s, c, rounds[0], delivered);
      RunKeepsMessages(s, rounds[0].others);
      StepKeepsMessages(Run(s, rounds[0].others), Poll(c, rounds[0], delivered));
      DrainKeepsMessages(s1, c, caller, rounds[1..], Delivered(reply));
    }
  }

  lemma InboxThenArrivalsAscend(s: State, s': State, project: ProjectId, agent: AgentId)
    requires Extends(s, s') && MessagesOk(s'.messages)
    ensures Ascending(PublicAll(Inbox(s, project, agent)) + Arrivals(s, s', project, agent))
  {
    var n, before := |s.messages|, s'.messages[..|s.messages|];
    assert Ascending(PublicAll(s.messages)) && Ascending(PublicAll(s'.messages[n..]));
    WhereAscends(s.messages, UnreadBy(project, agent));
    WhereAscends(s'.messages[n..], AddressedTo(project, agent));
    var first, second := Inbox(s, project, agent), Where(s'.messages[n..], AddressedTo(project, agent));
    forall i, j | 0 <= i < |first| && 0 <= j < |second|
      ensures first[i].sequence < second[j].sequence
    {
      OlderComesFirst(s, s', first[i], second[j]);
    }
  }

  lemma OlderComesFirst(s: State, s': State, m: Message, m': Message)
    requires Extends(s, s') && MessagesOk(s'.messages) && m in s.messages && m' in s'.messages[|s.messages|..]
    ensures m.sequence < m'.sequence
  {
    var n := |s.messages|;
    var a :| 0 <= a < n && s.messages[a] == m;
    var b :| 0 <= b < |s'.messages| - n && s'.messages[n..][b] == m';
    assert s'.messages[a].sequence < s'.messages[n + b].sequence;
  }

  /** What a client receives from its first poll on is strictly ascending in sequence, so no message comes twice. */
  lemma DeliveryIsAscending(s: State, c: Client, caller: AgentId, rounds: seq<Round>)
    requires MessagesOk(s.messages) && Authenticate(s.agents, c.project, c.token) == Some(caller)
    requires RoundsOk(s, c, caller, rounds, [])
    ensures Ascending(AllDelivered(DrainReplies(s, c, rounds, [])))
  {
    var inbox := Inbox(s, c.project, caller);
    assert PublicAll([]) == [];
    assert inbox == [] + inbox;
    assert DistinctIds(s.messages);
    var pending, left := DrainDelivers(s, c, caller, rounds, [], inbox);
    var end, all := DrainEnd(s, c, rounds, []), AllDelivered(DrainReplies(s, c, rounds, []));
    DrainKeepsMessages(s, c, caller, rounds, []);
    InboxThenArrivalsAscend(s, end, c.project, caller);
    assert forall k :: 0 <= k < |all| ==> (all + PublicAll(left))[k] == all[k];
  }

  // ----- When nothing else happens -----

  /** How many batches of at most `limit` messages make up n. */
  function Batches(n: nat, limit: nat): nat
    requires limit > 0
  {
    if n == 0 then 0 else 1 + Batches(n - Least(n, limit), limit)
  }

  lemma {:induction false} BatchesIsTheCeiling(n: nat, limit: nat)
    requires limit > 0
    ensures (Batches(n, limit) - 1) * limit < n <= Batches(n, limit) * limit || n == Batches(n, limit) == 0
  {
    if n > limit {
      BatchesIsTheCeiling(n - limit, limit);
      var k := Batches(n - limit, limit);
      assert (k + 1) * limit == k * limit + limit && k * limit == (k - 1) * limit + limit;
    }
  }

  /** Every poll but the last delivers, and says that more is left unless the next one is the last. */
  ghost predicate Empties(replies: seq<Reply>) {
    forall k :: 0 <= k < |replies| ==>
      && replies[k].Synced?
      && (replies[k].messages == [] <==> k == |replies| - 1)
      && (replies[k].hasMore <==> k < |replies| - 2)
  }

  lemma OnePollMore(reply: Reply, later: seq<Reply>)
    requires Empties(later) && later != [] && reply.Synced? && reply.messages != [] && (reply.hasMore <==> |later| > 1)
    ensures Empties([reply] + later)
  {
  }

  /** Alone, a client empties an inbox of n messages in the ceiling of n/limit delivering polls, whose flags say whether
      more is still to come, and one poll that only acknowledges. */
  lemma {:induction false} QuietDrain(
    s: State, c: Client, caller: AgentId, rounds: seq<Round>, limit: nat, pending: seq<Message>, rest: seq<Message>)
    requires Waiting(s, c, caller, pending, rest)
    requires 0 < limit && forall k :: 0 <= k < |rounds| ==> rounds[k].others == [] && rounds[k].limit == limit
    requires |rounds| == Batches(|rest|, limit) + 1
    ensures Inbox(DrainEnd(s, c, rounds, PublicAll(pending)), c.project, caller) == []
    ensures
      var replies := DrainReplies(s, c, rounds, PublicAll(pending));
      AllDelivered(replies) == PublicAll(rest) && |replies| == |rounds| && Empties(replies)
    decreases |rounds|
  {
    var s1, reply := RoundEnd(s, c, rounds[0], PublicAll(pending)), RoundReply(s, c, rounds[0], PublicAll(pending));
    var batch, left := RoundDelivers(s, c, caller, rounds[0], pending, rest);
    FirstReply(s, c, rounds, PublicAll(pending));
    if rest == [] {
      assert rounds[1..] == [] && batch == [] && left == [];
    } else {
      QuietDrain(s1, c, caller, rounds[1..], limit, batch, left);
      PublicOfJoined(batch, left);
      OnePollMore(reply, DrainReplies(s1, c, rounds[1..], PublicAll(batch)));
    }
  }
}
