/** Shared facts with optimistic versions. Each request is one transaction and takes one step. */
module Blackboard {
  import opened Wrappers

  type AgentId = nat

  /** The version column is a 32-bit signed integer. */
  const MAX_VERSION := 2_147_483_647

  datatype Place = Place(project: nat, namespace: string, key: string)

  datatype Fact = Fact(
    id: nat, value: string, tags: set<string>, version: nat, ttlSeconds: Option<nat>, expiresAt: Option<int>,
    createdBy: AgentId, lastUpdatedBy: AgentId, createdAt: int, updatedAt: int)

  datatype Event =
    | FactSet(place: Place, actor: AgentId, version: nat)
    | FactDeleted(place: Place, agent: Option<AgentId>, version: nat)

  datatype State = State(facts: map<Place, Fact>, events: seq<Event>)

  datatype ErrorCode = AgentAuthInvalid | VersionConflict | IntegerOutOfRange

  /** `caller` is the agent that the token authenticates, if any. */
  datatype Request =
    | Set(
        place: Place, caller: Option<AgentId>, value: string, tags: set<string>, ttlSeconds: Option<nat>,
        expectedVersion: Option<nat>, now: int, newId: nat)
    | Delete(place: Place, agent: Option<AgentId>)

  datatype Reply = Stored(fact: Fact) | Deleted(deleted: bool) | Failed(code: ErrorCode)

  // ----- Specification -----

  /** The version of a fact, or zero where there is none. */
  function VersionAt(s: State, place: Place): nat {
    if place in s.facts then s.facts[place].version else 0
  }

  function Expiry(r: Request): Option<int>
    requires r.Set?
  {
    if r.ttlSeconds.None? then None else Some(r.now + r.ttlSeconds.value * 1_000)
  }

  /** A write replaces everything but where the fact came from. */
  function Written(s: State, r: Request): Fact
    requires r.Set? && r.caller.Some?
  {
    var origin := if r.place in s.facts then s.facts[r.place]
                  else Fact(r.newId, "", {}, 0, None, None, r.caller.value, r.caller.value, r.now, r.now);
    Fact(
      origin.id, r.value, r.tags, VersionAt(s, r.place) + 1, r.ttlSeconds, Expiry(r),
      origin.createdBy, r.caller.value, origin.createdAt, r.now)
  }

  function ReplyTo(s: State, r: Request): Reply {
    match r
    case Set(place, caller, _, _, _, expectedVersion, _, _) =>
      if caller.None? then Failed(AgentAuthInvalid)
      else if expectedVersion.Some? && (place !in s.facts || VersionAt(s, place) != expectedVersion.value) then Failed(VersionConflict)
      else if VersionAt(s, place) >= MAX_VERSION then Failed(IntegerOutOfRange)
      else Stored(Written(s, r))
    case Delete(place, _) => Deleted(place in s.facts)
  }

  /** Failed requests and deletions of nothing leave no trace. */
  function After(s: State, r: Request): State {
    match ReplyTo(s, r)
    case Stored(fact) => State(s.facts[r.place := fact], s.events + [FactSet(r.place, fact.lastUpdatedBy, fact.version)])
    case Deleted(deleted) =>
      if deleted then State(s.facts - {r.place}, s.events + [FactDeleted(r.place, r.agent, s.facts[r.place].version)]) else s
    case Failed(_) => s
  }

  // ----- The service -----

  class Service {
    var facts: map<Place, Fact>
    var events: seq<Event>

    ghost function Contents(): State
      reads this
    {
      State(facts, events)
    }

    constructor ()
      ensures Contents() == State(map[], [])
    {
      facts, events := map[], [];
    }

    /** An increment beyond the integer range makes the database abort the transaction. */
    method SetFact(r: Request) returns (reply: Reply)
      requires r.Set?
      modifies this
      ensures Contents() == After(old(Contents()), r) && reply == ReplyTo(old(Contents()), r)
    {
      if r.caller.None? {
        return Failed(AgentAuthInvalid);
      }
      var agent := r.caller.value;
      var expiresAt := None;
      if r.ttlSeconds.Some? {
        expiresAt := Some(r.now + r.ttlSeconds.value * 1_000);
      }
      var persisted: Option<Fact> := None;
      if r.expectedVersion.None? && r.place !in facts {
        persisted := Some(Fact(r.newId, r.value, r.tags, 1, r.ttlSeconds, expiresAt, agent, agent, r.now, r.now));
      } else if r.place in facts && (r.expectedVersion.None? || facts[r.place].version == r.expectedVersion.value) {
        var entry := facts[r.place];
        if entry.version >= MAX_VERSION {
          return Failed(IntegerOutOfRange);
        }
        persisted := Some(entry.(
          value := r.value, tags := r.tags, version := entry.version + 1, ttlSeconds := r.ttlSeconds, expiresAt := expiresAt,
          lastUpdatedBy := agent, updatedAt := r.now));
      }
      if persisted.None? {
        return Failed(VersionConflict);
      }
      facts := facts[r.place := persisted.value];
      events := events + [FactSet(r.place, agent, persisted.value.version)];
      return Stored(persisted.value);
    }

    method DeleteFact(r: Request) returns (reply: Reply)
      requires r.Delete?
      modifies this
      ensures Contents() == After(old(Contents()), r) && reply == ReplyTo(old(Contents()), r)
    {
      if r.place !in facts {
        return Deleted(false);
      }
      var version := facts[r.place].version;
      facts := facts - {r.place};
      events := events + [FactDeleted(r.place, r.agent, version)];
      return Deleted(true);
    }

    /** Reads the facts of one project that are active and match the filters; none of the filters is required. */
    method GetFacts(project: nat, namespace: Option<string>, keys: Option<set<string>>, tags: set<string>, now: int)
      returns (found: map<Place, Fact>)
      ensures forall place :: place in found <==>
                && place in facts && place.project == project
                && (facts[place].expiresAt.None? || facts[place].expiresAt.value >= now)
                && (namespace.None? || place.namespace == namespace.value)
                && (keys.None? || place.key in keys.value)
                && tags <= facts[place].tags
      ensures forall place :: place in found ==> found[place] == facts[place]
    {
      found := map place | place in facts && place.project == project
                 && (facts[place].expiresAt.None? || facts[place].expiresAt.value >= now) :: facts[place];
      if namespace.Some? {
        found := map place | place in found && place.namespace == namespace.value :: found[place];
      }
      if keys.Some? {
        found := map place | place in found && place.key in keys.value :: found[place];
      }
      found := map place | place in found && tags <= found[place].tags :: found[place];
    }
  }

  // ----- What a request does, written out -----

  /** A write needs an authenticated agent, the expected version if there is one, and a version that can still grow. It
      stores value, tags and expiry, counts the version up, and keeps where the fact came from. */
  lemma WritingIsExact(s: State, r: Request)
    requires r.Set?
    ensures
      var place, there, conditional := r.place, r.place in s.facts, r.expectedVersion.Some?;
      if r.caller.None? then
        ReplyTo(s, r) == Failed(AgentAuthInvalid) && After(s, r) == s
      else if conditional && !(there && s.facts[place].version == r.expectedVersion.value) then
        ReplyTo(s, r) == Failed(VersionConflict) && After(s, r) == s
      else if there && s.facts[place].version >= 2_147_483_647 then
        ReplyTo(s, r) == Failed(IntegerOutOfRange) && After(s, r) == s
      else
        var agent := r.caller.value;
        var expiresAt := if r.ttlSeconds.Some? then Some(r.now + 1_000 * r.ttlSeconds.value) else None;
        var fact :=
          if there then
            s.facts[place].(value := r.value, tags := r.tags, version := s.facts[place].version + 1,
                            ttlSeconds := r.ttlSeconds, expiresAt := expiresAt, lastUpdatedBy := agent, updatedAt := r.now)
          else Fact(r.newId, r.value, r.tags, 1, r.ttlSeconds, expiresAt, agent, agent, r.now, r.now);
        && ReplyTo(s, r) == Stored(fact)
        && After(s, r) == State(s.facts[place := fact], s.events + [FactSet(place, agent, fact.version)])
  {
  }

  /** A deletion removes the fact and records its last version, or says that there was none. */
  lemma DeletingIsExact(s: State, r: Request)
    requires r.Delete?
    ensures
      if r.place in s.facts then
        && ReplyTo(s, r) == Deleted(true)
        && r.place !in After(s, r).facts
        && (forall place :: place != r.place ==>
              (place in After(s, r).facts <==> place in s.facts)
              && (place in s.facts ==> After(s, r).facts[place] == s.facts[place]))
        && After(s, r).events == s.events + [FactDeleted(r.place, r.agent, s.facts[r.place].version)]
      else ReplyTo(s, r) == Deleted(false) && After(s, r) == s
  {
  }

  // ----- The journal -----

  const EMPTY := State(map[], [])

  /** The number of writes that the journal records at a place since its last deletion. */
  function Writes(events: seq<Event>, place: Place): nat {
    if events == [] then 0
    else
      var last, before := events[|events| - 1], Writes(events[..|events| - 1], place);
      if last.place != place then before else if last.FactSet? then before + 1 else 0
  }

  /** Versions at every place run 1, 2, 3, ... and start again only after a deletion, which names the last version. */
  ghost predicate JournalOk(events: seq<Event>) {
    forall k :: 0 <= k < |events| ==>
      var before := Writes(events[..k], events[k].place);
      events[k].version == if events[k].FactSet? then before + 1 else before
  }

  ghost predicate Consistent(s: State) {
    && JournalOk(s.events)
    && forall place :: Writes(s.events, place) == VersionAt(s, place) && (place in s.facts ==> VersionAt(s, place) > 0)
  }

  lemma WritesOfAppended(events: seq<Event>, e: Event, place: Place)
    ensures
      Writes(events + [e], place) ==
      if e.place != place then Writes(events, place) else if e.FactSet? then Writes(events, place) + 1 else 0
  {
    assert (events + [e])[..|events|] == events;
  }

  lemma AppendKeepsJournal(events: seq<Event>, e: Event)
    requires JournalOk(events)
    requires e.version == if e.FactSet? then Writes(events, e.place) + 1 else Writes(events, e.place)
    ensures JournalOk(events + [e])
  {
    var all := events + [e];
    forall k | 0 <= k < |all|
      ensures
        var before := Writes(all[..k], all[k].place);
        all[k].version == if all[k].FactSet? then before + 1 else before
    {
      assert all[..k] == events[..k] by {
        assert k <= |events|;
      }
      if k == |events| {
        assert events[..k] == events;
      }
    }
  }

  lemma StepKeepsConsistent(s: State, r: Request)
    requires Consistent(s)
    ensures Consistent(After(s, r))
  {
    var s' := After(s, r);
    if s'.events != s.events {
      var e := s'.events[|s.events|];
      assert s'.events == s.events + [e];
      assert Writes(s.events, r.place) == VersionAt(s, r.place);
      AppendKeepsJournal(s.events, e);
      forall place
        ensures Writes(s'.events, place) == VersionAt(s', place) && (place in s'.facts ==> VersionAt(s', place) > 0)
      {
        WritesOfAppended(s.events, e, place);
        assert Writes(s.events, place) == VersionAt(s, place);
      }
    }
  }

  function Run(s: State, rs: seq<Request>): State
    decreases |rs|
  {
    if rs == [] then s else After(Run(s, rs[..|rs| - 1]), rs[|rs| - 1])
  }

  lemma RunAppend(s: State, rs: seq<Request>, r: Request)
    ensures Run(s, rs + [r]) == After(Run(s, rs), r)
  {
    assert (rs + [r])[..|rs|] == rs;
  }

  /** In every reachable state the versions are what the journal says: each fact's version is the number of writes since
      its creation, and no place without a fact has any. */
  lemma {:induction false} VersionsReplayFromJournal(rs: seq<Request>)
    ensures Consistent(Run(EMPTY, rs))
    decreases |rs|
  {
    if rs != [] {
      VersionsReplayFromJournal(rs[..|rs| - 1]);
      StepKeepsConsistent(Run(EMPTY, rs[..|rs| - 1]), rs[|rs| - 1]);
    }
  }

  // ----- Compare and set -----

  predicate Deletes(s: State, r: Request, place: Place) {
    r.Delete? && r.place == place && place in s.facts
  }

  predicate WritesAt(s: State, r: Request, place: Place) {
    r.Set? && r.place == place && ReplyTo(s, r).Stored?
  }

  ghost predicate NoDeletion(s: State, rs: seq<Request>, place: Place)
    decreases |rs|
  {
    rs == [] || (NoDeletion(s, rs[..|rs| - 1], place) && !Deletes(Run(s, rs[..|rs| - 1]), rs[|rs| - 1], place))
  }

  /** How many of the requests write at the place. */
  function WritesIn(s: State, rs: seq<Request>, place: Place): nat
    decreases |rs|
  {
    if rs == [] then 0
    else WritesIn(s, rs[..|rs| - 1], place) + if WritesAt(Run(s, rs[..|rs| - 1]), rs[|rs| - 1], place) then 1 else 0
  }

  lemma {:induction false} VersionCountsWrites(s: State, rs: seq<Request>, place: Place)
    requires place in s.facts && NoDeletion(s, rs, place)
    ensures place in Run(s, rs).facts && VersionAt(Run(s, rs), place) == VersionAt(s, place) + WritesIn(s, rs, place)
    ensures WritesIn(s, rs, place) == 0 ==> Run(s, rs).facts[place] == s.facts[place]
    decreases |rs|
  {
    if rs != [] {
      VersionCountsWrites(s, rs[..|rs| - 1], place);
    }
  }

  /** The write that a reader of a fact makes conditional on the version that it read. */
  predicate ConditionalOn(r: Request, place: Place, version: nat) {
    r.Set? && r.caller.Some? && r.place == place && r.expectedVersion == Some(version)
  }

  /** Unless the fact was deleted meanwhile, a conditional write succeeds exactly if nothing was written since the
      version was read, and then it replaces the very fact that was read. */
  lemma ConditionalWriteDetectsOthers(s: State, rs: seq<Request>, r: Request, place: Place)
    requires place in s.facts && NoDeletion(s, rs, place) && ConditionalOn(r, place, VersionAt(s, place))
    requires VersionAt(s, place) < MAX_VERSION
    ensures ReplyTo(Run(s, rs), r).Stored? <==> WritesIn(s, rs, place) == 0
    ensures ReplyTo(Run(s, rs), r).Stored? ==> Run(s, rs).facts[place] == s.facts[place]
  {
    VersionCountsWrites(s, rs, place);
  }

  /** Between two deletions at most one conditional write on a version succeeds. */
  lemma ConditionalWritesExclude(s: State, r: Request, rs: seq<Request>, q: Request, place: Place, version: nat)
    requires ConditionalOn(r, place, version) && ConditionalOn(q, place, version)
    requires ReplyTo(s, r).Stored? && NoDeletion(After(s, r), rs, place)
    ensures ReplyTo(Run(After(s, r), rs), q) == Failed(VersionConflict)
  {
    VersionCountsWrites(After(s, r), rs, place);
  }

  /** In every reachable state a conditional write succeeds exactly if as many writes as its version says were made since
      the last deletion. */
  lemma ConditionalWriteIsExact(rs: seq<Request>, r: Request, place: Place, version: nat)
    requires ConditionalOn(r, place, version)
    ensures
      ReplyTo(Run(EMPTY, rs), r).Stored? <==> 0 < version < MAX_VERSION && Writes(Run(EMPTY, rs).events, place) == version
  {
    VersionsReplayFromJournal(rs);
    assert Writes(Run(EMPTY, rs).events, place) == VersionAt(Run(EMPTY, rs), place);
  }

  /** Generated identifiers are new. */
  ghost predicate NewIds(rs: seq<Request>, place: Place, id: nat) {
    forall k :: 0 <= k < |rs| && rs[k].Set? && rs[k].place == place ==> rs[k].newId != id
  }

  lemma {:induction false} DeletedIdsStayGone(s: State, rs: seq<Request>, place: Place)
    requires place in s.facts && NewIds(rs, place, s.facts[place].id)
    ensures
      var t := Run(s, rs);
      if NoDeletion(s, rs, place) then place in t.facts && t.facts[place].id == s.facts[place].id
      else place in t.facts ==> t.facts[place].id != s.facts[place].id
    decreases |rs|
  {
    if rs != [] {
      DeletedIdsStayGone(s, rs[..|rs| - 1], place);
    }
  }

  /** A conditional write that succeeds replaces the very fact that was read if and only if the fact was not deleted
      since. */
  lemma ConditionalWriteReplacesWhatWasRead(s: State, rs: seq<Request>, r: Request, place: Place)
    requires place in s.facts && ConditionalOn(r, place, VersionAt(s, place)) && NewIds(rs, place, s.facts[place].id)
    requires ReplyTo(Run(s, rs), r).Stored?
    ensures place in Run(s, rs).facts
    ensures Run(s, rs).facts[place] == s.facts[place] <==> NoDeletion(s, rs, place)
  {
    DeletedIdsStayGone(s, rs, place);
    if NoDeletion(s, rs, place) {
      ConditionalWriteDetectsOthers(s, rs, r, place);
    }
  }

  /** A deletion and a new creation go unnoticed: a conditional write then overwrites a fact that its author never read. */
  lemma DeletionGoesUnnoticed(place: Place, reader: AgentId, other: AgentId)
    returns (rs: seq<Request>, r: Request)
    requires reader != other
    ensures |rs| == 3 && ConditionalOn(r, place, VersionAt(Run(EMPTY, rs[..1]), place)) && r.caller == Some(reader)
    ensures
      var s, t := Run(EMPTY, rs[..1]), Run(EMPTY, rs);
      && place in s.facts && place in t.facts && t.facts[place].createdBy == other && t.facts[place] != s.facts[place]
      && ReplyTo(t, r).Stored?
  {
    var create := Set(place, Some(reader), "a", {}, None, None, 0, 0);
    var delete, again := Delete(place, None), Set(place, Some(other), "b", {}, None, None, 0, 1);
    rs, r := [create, delete, again], Set(place, Some(reader), "c", {}, None, Some(1), 0, 2);
    RunAppend(EMPTY, [], create);
    RunAppend(EMPTY, [create], delete);
    RunAppend(EMPTY, [create, delete], again);
    assert rs[..1] == [create] == [] + [create];
    assert rs == [create, delete] + [again] && [create, delete] == [create] + [delete];
  }
}
