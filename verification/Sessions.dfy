/** The behaviour sessionizer (telemetry.py): every event joins or opens a session, whose running
    aggregates must agree with the event log.  Identifiers of new sessions, digests and redacted
    payloads are inputs; a transaction is one call. */
module Sessions {
  import opened Prelude

  // ---- Events and sessions ----------------------------------------------------------------------

  /** An incoming event.  `digest` is the hash that stands in for a missing event id; the last three
      fields are what the redacted payload says. */
  datatype Incoming = Incoming(
    eventId: string, digest: string, tenant: string, user: string, session: string, conversation: string,
    trace: string, kind: string, status: Option<int>, at: int,
    dislike: bool, degraded: bool, faithfulness: Option<real>)

  /** Sessions named by the caller have a hashed key, taken here as the key itself. */
  datatype SessionId = Keyed(key: string) | Generated(n: nat)

  datatype Row = Row(
    source: string, session: SessionId, tenant: string, user: string, conversation: string, trace: string,
    kind: string, status: Option<int>, at: int, dislike: bool, degraded: bool, faithfulness: Option<real>)

  datatype Aggregates = Aggregates(
    count: nat, last: Option<int>, dislike: bool, failure: bool, degradation: bool, faithfulness: Option<real>)

  datatype Session = Session(
    tenant: string, user: string, conversation: string, trace: string, open: bool,
    started: int, last: int, closedAt: Option<int>,
    count: nat, dislike: bool, failure: bool, degradation: bool, faithfulness: Option<real>)

  function Clip(s: string, n: nat): string { if |s| <= n then s else s[..n] }

  function OrElse(a: string, b: string): string { if a != "" then a else b }

  function Tenant(e: Incoming): string { Clip(OrElse(e.tenant, "default"), 64) }

  function User(e: Incoming): string { Clip(e.user, 64) }

  function Conversation(e: Incoming): string { Clip(e.conversation, 64) }

  function Trace(e: Incoming): string { Clip(e.trace, 64) }

  function SourceId(e: Incoming): string { if e.eventId != "" then Clip(e.eventId, 128) else e.digest }

  function Key(e: Incoming): string { Tenant(e) + "|" + User(e) + "|" + e.session }

  function Stored(e: Incoming, id: SessionId): Row {
    Row(SourceId(e), id, Tenant(e), User(e), Conversation(e), Trace(e), Clip(e.kind, 96), e.status, e.at,
        e.dislike, e.degraded, e.faithfulness)
  }

  predicate OccursAt(s: string, t: string, i: nat) { i + |t| <= |s| && s[i..i + |t|] == t }

  predicate Contains(s: string, t: string) { exists i: nat :: i <= |s| && OccursAt(s, t, i) }

  predicate Failing(kind: string, status: Option<int>) {
    || (status.Some? && status.value >= 500)
    || kind in {"qa.stream.aborted", "qa.stream.error", "qa.websocket.aborted", "qa.websocket.error",
                "http.error", "timeout"}
  }

  predicate Hints(kind: string) {
    Contains(kind, "fallback") || Contains(kind, "degraded") || Contains(kind, "timeout")
  }

  predicate Degrading(kind: string, status: Option<int>, degraded: bool) {
    status == Some(408) || status == Some(429) || Hints(kind) || degraded
  }

  predicate Dislikes(kind: string, dislike: bool) { kind == "feedback.submitted" && dislike }

  function Lower(a: Option<real>, b: Option<real>): Option<real> {
    if b.None? then a else if a.None? then b else if b.value < a.value then b else a
  }

  function NewSession(e: Incoming): Session {
    Session(Tenant(e), User(e), Conversation(e), Trace(e), true, e.at, e.at, None, 0, false, false, false, None)
  }

  /** The updates that an event makes to its session. */
  function Touched(s: Session, e: Incoming): Session {
    s.(count := s.count + 1, last := Max(s.last, e.at),
       conversation := OrElse(s.conversation, Conversation(e)), trace := OrElse(s.trace, Trace(e)),
       dislike := s.dislike || Dislikes(e.kind, e.dislike),
       failure := s.failure || Failing(e.kind, e.status),
       degradation := s.degradation || Degrading(e.kind, e.status, e.degraded),
       faithfulness := Lower(s.faithfulness, e.faithfulness))
  }

  predicate IsFailure(e: Incoming) {
    || (e.status.Some? && 500 <= e.status.value)
    || e.kind == "qa.stream.aborted" || e.kind == "qa.stream.error"
    || e.kind == "qa.websocket.aborted" || e.kind == "qa.websocket.error"
    || e.kind == "http.error" || e.kind == "timeout"
  }

  ghost predicate IsDegradation(e: Incoming) {
    || e.degraded || e.status == Some(408) || e.status == Some(429)
    || (exists a, b :: e.kind == a + "fallback" + b)
    || (exists a, b :: e.kind == a + "degraded" + b)
    || (exists a, b :: e.kind == a + "timeout" + b)
  }

  lemma ContainsMeans(s: string, t: string)
    ensures Contains(s, t) <==> exists a, b :: s == a + t + b
  {
    if Contains(s, t) {
      var i: nat :| i <= |s| && OccursAt(s, t, i);
      assert s == s[..i] + t + s[i + |t|..];
    }
    if a, b :| s == a + t + b { assert OccursAt(s, t, |a|); }
  }

  /** What an event does to its session, by its own fields: a failure is a status of 500 or more or one
      of six kinds, a degradation a status of 408 or 429, a kind that says so, or the event's flag. */
  ghost predicate AccountsFor(after: Session, before: Session, e: Incoming) {
    && after.count == before.count + 1
    && after.last >= before.last && after.last >= e.at && (after.last == before.last || after.last == e.at)
    && (after.failure <==> before.failure || IsFailure(e))
    && (after.degradation <==> before.degradation || IsDegradation(e))
    && (after.dislike <==> before.dislike || (e.kind == "feedback.submitted" && e.dislike))
    && (e.faithfulness.Some? ==> after.faithfulness.Some? && after.faithfulness.value <= e.faithfulness.value)
    && (before.faithfulness.Some? ==> after.faithfulness.Some? && after.faithfulness.value <= before.faithfulness.value)
    && (after.faithfulness == before.faithfulness || after.faithfulness == e.faithfulness)
    && after.tenant == before.tenant && after.user == before.user && after.open == before.open
    && after.started == before.started && after.closedAt == before.closedAt
    && after.conversation == (if before.conversation != "" then before.conversation else Clip(e.conversation, 64))
    && after.trace == (if before.trace != "" then before.trace else Clip(e.trace, 64))
  }

  lemma TouchedAccounts(s: Session, e: Incoming)
    ensures AccountsFor(Touched(s, e), s, e)
  {
    ContainsMeans(e.kind, "fallback");
    ContainsMeans(e.kind, "degraded");
    ContainsMeans(e.kind, "timeout");
  }

  // ---- Which session an event joins --------------------------------------------------------------

  datatype Filter = Any | ByConversation(conversation: string) | ByTrace(trace: string)

  predicate Eligible(s: Session, e: Incoming, idle: int, f: Filter) {
    && s.tenant == Tenant(e) && s.user == User(e) && s.open && s.last >= e.at - idle
    && match f
       case Any => true
       case ByConversation(c) => s.conversation == c
       case ByTrace(t) => s.trace == t
  }

  ghost predicate NoneFound(sessions: map<SessionId, Session>, e: Incoming, idle: int, f: Filter) {
    forall id :: id in sessions ==> !Eligible(sessions[id], e, idle, f)
  }

  /** An eligible session with the latest activity. */
  ghost predicate BestFound(sessions: map<SessionId, Session>, e: Incoming, idle: int, f: Filter, id: SessionId) {
    && id in sessions && Eligible(sessions[id], e, idle, f)
    && forall other :: other in sessions && Eligible(sessions[other], e, idle, f) ==>
         sessions[other].last <= sessions[id].last
  }

  function FirstFilter(e: Incoming): Filter {
    if Conversation(e) != "" then ByConversation(Conversation(e))
    else if Trace(e) != "" then ByTrace(Trace(e)) else Any
  }

  predicate HasSecondFilter(e: Incoming) { Conversation(e) != "" && Trace(e) != "" }

  ghost predicate Opens(sessions: map<SessionId, Session>, id: SessionId) { id.Generated? && id !in sessions }

  ghost predicate Resolves(sessions: map<SessionId, Session>, e: Incoming, idle: int, id: SessionId) {
    if e.session != "" then id == Keyed(Key(e))
    else
      || BestFound(sessions, e, idle, FirstFilter(e), id)
      || (&& NoneFound(sessions, e, idle, FirstFilter(e))
          && if HasSecondFilter(e)
             then (|| BestFound(sessions, e, idle, ByTrace(Trace(e)), id)
                   || (NoneFound(sessions, e, idle, ByTrace(Trace(e))) && Opens(sessions, id)))
             else Opens(sessions, id))
  }

  predicate Duplicate(rows: seq<Row>, e: Incoming) {
    exists i :: 0 <= i < |rows| && rows[i].tenant == Tenant(e) && rows[i].source == SourceId(e)
  }

  function Base(sessions: map<SessionId, Session>, e: Incoming, id: SessionId): Session {
    if id in sessions then sessions[id] else NewSession(e)
  }

  predicate Idle(s: Session, now: int, idle: int) { s.open && s.last < now - idle }

  function CloseOne(s: Session, now: int, idle: int): Session {
    if Idle(s, now, idle) then s.(open := false, closedAt := Some(now)) else s
  }

  function CloseIdle(sessions: map<SessionId, Session>, now: int, idle: int): map<SessionId, Session> {
    map id | id in sessions :: CloseOne(sessions[id], now, idle)
  }

  /** `accepted` remembers, for each row, the event that it stores. */
  datatype State = State(sessions: map<SessionId, Session>, rows: seq<Row>, accepted: seq<Incoming>)

  datatype Action = Ingest(event: Incoming, id: SessionId) | Close(now: int)

  class Telemetry {
    const idle: int
    var sessions: map<SessionId, Session>
    var rows: seq<Row>
    ghost var accepted: seq<Incoming>

    ghost function Now(): State
      reads this
    {
      State(sessions, rows, accepted)
    }

    constructor (idle: int)
      ensures Now() == After([], idle) && this.idle == idle
    {
      this.idle := idle;
      sessions, rows, accepted := map[], [], [];
    }

    method FindSession(e: Incoming, f: Filter) returns (found: Option<SessionId>)
      ensures found.None? ==> NoneFound(sessions, e, idle, f)
      ensures found.Some? ==> BestFound(sessions, e, idle, f, found.value)
    {
      found := None;
      var rest := sessions.Keys;
      while rest != {}
        invariant rest <= sessions.Keys
        invariant found.None? ==> forall id :: id in sessions && id !in rest ==> !Eligible(sessions[id], e, idle, f)
        invariant found.Some? ==> found.value in sessions && Eligible(sessions[found.value], e, idle, f)
        invariant found.Some? ==> forall id :: id in sessions && id !in rest && Eligible(sessions[id], e, idle, f) ==>
                                                 sessions[id].last <= sessions[found.value].last
        decreases rest
      {
        var id :| id in rest;
        if Eligible(sessions[id], e, idle, f) && (found.None? || sessions[id].last > sessions[found.value].last) {
          found := Some(id);
        }
        rest := rest - {id};
      }
    }

    /** `_resolve_session`; a new session is flushed at once. */
    method ResolveSession(e: Incoming, newId: SessionId) returns (id: SessionId)
      requires Opens(sessions, newId)
      modifies this`sessions
      ensures Resolves(old(sessions), e, idle, id)
      ensures sessions == old(sessions)[id := Base(old(sessions), e, id)]
    {
      if e.session != "" {
        id := Keyed(Key(e));
        if id !in sessions { sessions := sessions[id := NewSession(e)]; }
        return;
      }
      var found := FindSession(e, FirstFilter(e));
      if found.None? && HasSecondFilter(e) { found := FindSession(e, ByTrace(Trace(e))); }
      if found.Some? { return found.value; }
      id := newId;
      sessions := sessions[id := NewSession(e)];
    }

    /** `ingest_event`: the unique index on (tenant, source) turns a repeated event into a rollback,
        which also takes back a session that was flushed for it. */
    method IngestEvent(e: Incoming, newId: SessionId) returns (stored: bool, id: SessionId)
      requires Opens(sessions, newId)
      modifies this
      ensures stored <==> !Duplicate(old(rows), e)
      ensures Enabled(old(Now()), Ingest(e, id), idle)
      ensures Now() == Apply(old(Now()), Ingest(e, id), idle)
      ensures stored ==> id in sessions && AccountsFor(sessions[id], Base(old(sessions), e, id), e)
      ensures Joins(old(sessions), e, idle, id)
      ensures stored ==> rows == old(rows) + [Stored(e, id)]
      ensures forall other :: other in old(sessions) && other != id ==>
                other in sessions && sessions[other] == old(sessions)[other]
    {
      var savepoint := sessions;
      id := ResolveSession(e, newId);
      ResolvesMeans(old(sessions), e, idle, id);
      sessions := sessions[id := Touched(sessions[id], e)];
      if Duplicate(rows, e) {
        sessions := savepoint;
        return false, id;
      }
      TouchedAccounts(Base(old(sessions), e, id), e);
      rows, accepted := rows + [Stored(e, id)], accepted + [e];
      stored := true;
    }

    method CloseIdleSessions(now: int) returns (closed: nat)
      modifies this`sessions
      ensures Now() == Apply(old(Now()), Close(now), idle)
      ensures closed == |set id | id in old(sessions) && Idle(old(sessions)[id], now, idle)|
      // Afterwards no open session is older than the cutoff, and none younger than it was closed.
      ensures sessions.Keys == old(sessions).Keys
      ensures forall id :: id in sessions && sessions[id].open ==> sessions[id].last >= now - idle
      ensures forall id :: id in sessions && old(sessions)[id].last >= now - idle ==> sessions[id] == old(sessions)[id]
      ensures forall id :: id in sessions && old(sessions)[id].open && old(sessions)[id].last < now - idle ==>
                sessions[id] == old(sessions)[id].(open := false, closedAt := Some(now))
      ensures forall id :: id in sessions && !old(sessions)[id].open ==> sessions[id] == old(sessions)[id]
    {
      var selected := set id | id in sessions && Idle(sessions[id], now, idle);
      var rest := selected;
      while rest != {}
        invariant rest <= selected && sessions.Keys == old(sessions).Keys
        invariant forall id :: id in sessions ==>
                    sessions[id] == if id in selected - rest then CloseOne(old(sessions)[id], now, idle)
                                    else old(sessions)[id]
        decreases rest
      {
        var id :| id in rest;
        sessions := sessions[id := sessions[id].(open := false, closedAt := Some(now))];
        rest := rest - {id};
      }
      closed := |selected|;
      assert sessions.Keys == CloseIdle(old(sessions), now, idle).Keys;
      assert forall id :: id in sessions ==> sessions[id] == CloseOne(old(sessions)[id], now, idle);
      assert sessions == CloseIdle(old(sessions), now, idle);
    }
  }

  // ---- What joining means --------------------------------------------------------------------------

  function Cut(s: string, n: nat): string { if |s| > n then s[..n] else s }

  function Owner(e: Incoming): string { if e.tenant == "" then "default" else Cut(e.tenant, 64) }

  /** The sessions an unnamed event may join: open, of its tenant and user, and active within the idle time. */
  predicate Near(s: Session, e: Incoming, idle: int) {
    s.open && s.tenant == Owner(e) && s.user == Cut(e.user, 64) && e.at - s.last <= idle
  }

  /** `id` is the latest of the sessions among `at`. */
  ghost predicate Latest(sessions: map<SessionId, Session>, at: set<SessionId>, id: SessionId) {
    id in at && at <= sessions.Keys && forall other :: other in at ==> sessions[other].last <= sessions[id].last
  }

  /** The session of an event: the named one of its tenant and user; else the latest one near of the same
      conversation, else of the same trace, else, for an event with neither, the latest one near; else a
      new one. */
  ghost predicate Joins(sessions: map<SessionId, Session>, e: Incoming, idle: int, id: SessionId) {
    var c, t := Cut(e.conversation, 64), Cut(e.trace, 64);
    var near := set x | x in sessions && Near(sessions[x], e, idle);
    var sameTalk := set x | x in near && sessions[x].conversation == c;
    var sameTrace := set x | x in near && sessions[x].trace == t;
    if e.session != "" then id == Keyed(Owner(e) + "|" + Cut(e.user, 64) + "|" + e.session)
    else if c != "" && sameTalk != {} then Latest(sessions, sameTalk, id)
    else if t != "" && sameTrace != {} then Latest(sessions, sameTrace, id)
    else if c == "" && t == "" && near != {} then Latest(sessions, near, id)
    else id.Generated? && id !in sessions
  }

  lemma FieldsAre(e: Incoming)
    ensures Tenant(e) == Owner(e) && User(e) == Cut(e.user, 64)
    ensures Conversation(e) == Cut(e.conversation, 64) && Trace(e) == Cut(e.trace, 64)
    ensures SourceId(e) == if e.eventId == "" then e.digest else Cut(e.eventId, 128)
  {
  }

  lemma ResolvesMeans(sessions: map<SessionId, Session>, e: Incoming, idle: int, id: SessionId)
    requires Resolves(sessions, e, idle, id)
    ensures Joins(sessions, e, idle, id)
  {
    FieldsAre(e);
    var near := set x | x in sessions && Near(sessions[x], e, idle);
    var sameTalk := set x | x in near && sessions[x].conversation == Conversation(e);
    var sameTrace := set x | x in near && sessions[x].trace == Trace(e);
    FilterMeans(sessions, e, idle, Any, near, id);
    FilterMeans(sessions, e, idle, ByConversation(Conversation(e)), sameTalk, id);
    FilterMeans(sessions, e, idle, ByTrace(Trace(e)), sameTrace, id);
  }

  lemma FilterMeans(sessions: map<SessionId, Session>, e: Incoming, idle: int, f: Filter, at: set<SessionId>,
                    id: SessionId)
    requires at == set x | x in sessions && Near(sessions[x], e, idle)
                           && match f
                              case Any => true
                              case ByConversation(c) => sessions[x].conversation == c
                              case ByTrace(t) => sessions[x].trace == t
    ensures NoneFound(sessions, e, idle, f) <==> at == {}
    ensures BestFound(sessions, e, idle, f, id) <==> Latest(sessions, at, id)
  {
    FieldsAre(e);
    forall x | x in sessions ensures Eligible(sessions[x], e, idle, f) <==> x in at {}
  }

  /** A new session and a stored row, field by field. */
  lemma RowsAre(e: Incoming, id: SessionId)
    ensures NewSession(e) == Session(Owner(e), Cut(e.user, 64), Cut(e.conversation, 64), Cut(e.trace, 64), true,
                                     e.at, e.at, None, 0, false, false, false, None)
    ensures Stored(e, id) == Row(if e.eventId == "" then e.digest else Cut(e.eventId, 128), id, Owner(e),
                                 Cut(e.user, 64), Cut(e.conversation, 64), Cut(e.trace, 64), Cut(e.kind, 96),
                                 e.status, e.at, e.dislike, e.degraded, e.faithfulness)
  {
    FieldsAre(e);
  }

  // ---- The aggregates as a fold ----------------------------------------------------------------

  function Fold(es: seq<Incoming>): Aggregates {
    if es == [] then Aggregates(0, None, false, false, false, None)
    else
      var a, e := Fold(es[..|es| - 1]), es[|es| - 1];
      Aggregates(a.count + 1, Some(if a.last.None? then e.at else Max(a.last.value, e.at)),
                 a.dislike || Dislikes(e.kind, e.dislike), a.failure || Failing(e.kind, e.status),
                 a.degradation || Degrading(e.kind, e.status, e.degraded), Lower(a.faithfulness, e.faithfulness))
  }

  function AggregatesOf(s: Session): Aggregates {
    Aggregates(s.count, Some(s.last), s.dislike, s.failure, s.degradation, s.faithfulness)
  }

  ghost predicate IsLast(es: seq<Incoming>, last: Option<int>) {
    match last
    case None => es == []
    case Some(m) => (exists e :: e in es && e.at == m) && forall e :: e in es ==> e.at <= m
  }

  ghost predicate IsLeast(es: seq<Incoming>, least: Option<real>) {
    match least
    case None => forall e :: e in es ==> e.faithfulness.None?
    case Some(m) => && (exists e :: e in es && e.faithfulness == Some(m))
                    && forall e :: e in es && e.faithfulness.Some? ==> m <= e.faithfulness.value
  }

  /** What the aggregates mean, without any order: a count, a maximum, three disjunctions, a minimum. */
  ghost predicate Describes(a: Aggregates, es: seq<Incoming>) {
    && a.count == |es| && IsLast(es, a.last) && IsLeast(es, a.faithfulness) && Flags(a, es)
  }

  ghost predicate Flags(a: Aggregates, es: seq<Incoming>) {
    && (a.dislike <==> exists e :: e in es && Dislikes(e.kind, e.dislike))
    && (a.failure <==> exists e :: e in es && Failing(e.kind, e.status))
    && (a.degradation <==> exists e :: e in es && Degrading(e.kind, e.status, e.degraded))
  }

  lemma {:induction false} FoldDescribes(es: seq<Incoming>)
    ensures Describes(Fold(es), es)
  {
    if es != [] {
      var init, e := es[..|es| - 1], es[|es| - 1];
      FoldDescribes(init);
      assert es == init + [e];
      FoldLast(init, e, Fold(init));
      FoldLeast(init, e, Fold(init));
      FoldFlags(init, e, Fold(init), Fold(es));
    }
  }

  lemma FoldFlags(init: seq<Incoming>, e: Incoming, a: Aggregates, b: Aggregates)
    requires Flags(a, init)
    requires b.dislike == (a.dislike || Dislikes(e.kind, e.dislike))
    requires b.failure == (a.failure || Failing(e.kind, e.status))
    requires b.degradation == (a.degradation || Degrading(e.kind, e.status, e.degraded))
    ensures Flags(b, init + [e])
  {
    assert e in init + [e];
    assert forall x :: x in init + [e] <==> x in init || x == e;
  }

  lemma FoldLast(init: seq<Incoming>, e: Incoming, a: Aggregates)
    requires IsLast(init, a.last)
    ensures IsLast(init + [e], Some(if a.last.None? then e.at else Max(a.last.value, e.at)))
  {
    assert forall x :: x in init + [e] <==> x in init || x == e;
    assert e in init + [e];
  }

  lemma FoldLeast(init: seq<Incoming>, e: Incoming, a: Aggregates)
    requires IsLeast(init, a.faithfulness)
    ensures IsLeast(init + [e], Lower(a.faithfulness, e.faithfulness))
  {
    assert forall x :: x in init + [e] <==> x in init || x == e;
    assert e in init + [e];
    if a.faithfulness.Some? {
      var w :| w in init && w.faithfulness == a.faithfulness;
      assert w in init + [e];
    }
  }

  /** The aggregates do not depend on the order of arrival. */
  lemma OrderIsIrrelevant(es: seq<Incoming>, fs: seq<Incoming>)
    requires multiset(es) == multiset(fs)
    ensures Fold(es) == Fold(fs)
  {
    FoldDescribes(es);
    FoldDescribes(fs);
    assert |es| == |multiset(es)| == |fs|;
    forall e ensures e in es <==> e in fs {
      assert e in es <==> e in multiset(es);
      assert e in fs <==> e in multiset(fs);
    }
    DescriptionsAreUnique(es, fs, Fold(es), Fold(fs));
  }

  lemma DescriptionsAreUnique(es: seq<Incoming>, fs: seq<Incoming>, a: Aggregates, b: Aggregates)
    requires |es| == |fs| && forall e :: e in es <==> e in fs
    requires Describes(a, es) && Describes(b, fs)
    ensures a == b
  {
    LastIsUnique(es, fs, a.last, b.last);
    LeastIsUnique(es, fs, a.faithfulness, b.faithfulness);
  }

  lemma LastIsUnique(es: seq<Incoming>, fs: seq<Incoming>, a: Option<int>, b: Option<int>)
    requires |es| == |fs| && (forall e :: e in es <==> e in fs) && IsLast(es, a) && IsLast(fs, b)
    ensures a == b
  {
    if a.Some? && b.Some? {
      var x :| x in es && x.at == a.value;
      var y :| y in fs && y.at == b.value;
    }
  }

  lemma LeastIsUnique(es: seq<Incoming>, fs: seq<Incoming>, a: Option<real>, b: Option<real>)
    requires (forall e :: e in es <==> e in fs) && IsLeast(es, a) && IsLeast(fs, b)
    ensures a == b
  {
    if a.Some? {
      var x :| x in es && x.faithfulness == a;
      assert b.Some? ==> b.value <= a.value;
    }
    if b.Some? {
      var y :| y in fs && y.faithfulness == b;
    }
  }

  function FirstNonEmpty(names: seq<string>): string {
    if names == [] then "" else OrElse(FirstNonEmpty(names[..|names| - 1]), names[|names| - 1])
  }

  function Conversations(es: seq<Incoming>): seq<string> { seq(|es|, i requires 0 <= i < |es| => Conversation(es[i])) }

  function Traces(es: seq<Incoming>): seq<string> { seq(|es|, i requires 0 <= i < |es| => Trace(es[i])) }

  /** A session says what its events say, in order of arrival `es`. */
  ghost predicate Agrees(s: Session, es: seq<Incoming>) {
    && es != [] && AggregatesOf(s) == Fold(es) && s.started == es[0].at
    && s.conversation == FirstNonEmpty(Conversations(es)) && s.trace == FirstNonEmpty(Traces(es))
  }

  lemma TouchedAgrees(s: Session, es: seq<Incoming>, e: Incoming)
    requires Agrees(s, es)
    ensures Agrees(Touched(s, e), es + [e])
  {
    var all := es + [e];
    assert all[..|all| - 1] == es;
    assert Conversations(all)[..|all| - 1] == Conversations(es) && Traces(all)[..|all| - 1] == Traces(es);
  }

  lemma FreshAgrees(e: Incoming)
    ensures Agrees(Touched(NewSession(e), e), [e])
  {
    assert [e][..0] == [] && Fold([]) == Aggregates(0, None, false, false, false, None);
    assert Conversations([e])[..0] == [] && Traces([e])[..0] == [];
  }

  // ---- Runs -------------------------------------------------------------------------------------

  ghost predicate Enabled(s: State, a: Action, idle: int) {
    a.Ingest? ==> Resolves(s.sessions, a.event, idle, a.id)
  }

  function Apply(s: State, a: Action, idle: int): State {
    match a
    case Close(now) => s.(sessions := CloseIdle(s.sessions, now, idle))
    case Ingest(e, id) =>
      if Duplicate(s.rows, e) then s
      else State(s.sessions[id := Touched(Base(s.sessions, e, id), e)], s.rows + [Stored(e, id)], s.accepted + [e])
  }

  function After(actions: seq<Action>, idle: int): State {
    if actions == [] then State(map[], [], [])
    else Apply(After(actions[..|actions| - 1], idle), actions[|actions| - 1], idle)
  }

  ghost predicate IsRun(actions: seq<Action>, idle: int) {
    actions == [] || (IsRun(actions[..|actions| - 1], idle)
                      && Enabled(After(actions[..|actions| - 1], idle), actions[|actions| - 1], idle))
  }

  /** The accepted events of one session, in order of arrival. */
  function Mine(rows: seq<Row>, accepted: seq<Incoming>, id: SessionId): seq<Incoming>
    requires |rows| == |accepted|
  {
    if rows == [] then []
    else
      var n := |rows| - 1;
      Mine(rows[..n], accepted[..n], id) + if rows[n].session == id then [accepted[n]] else []
  }

  lemma {:induction false} NobodysEvents(rows: seq<Row>, accepted: seq<Incoming>, id: SessionId)
    requires |rows| == |accepted| && forall i :: 0 <= i < |rows| ==> rows[i].session != id
    ensures Mine(rows, accepted, id) == []
  {
    if rows != [] { NobodysEvents(rows[..|rows| - 1], accepted[..|rows| - 1], id); }
  }

  ghost predicate UniqueSources(rows: seq<Row>) {
    forall i, j :: 0 <= i < j < |rows| ==> rows[i].tenant != rows[j].tenant || rows[i].source != rows[j].source
  }

  ghost predicate Logged(s: State) {
    && |s.rows| == |s.accepted| && UniqueSources(s.rows)
    && forall i :: 0 <= i < |s.rows| ==>
         s.rows[i].session in s.sessions && s.rows[i] == Stored(s.accepted[i], s.rows[i].session)
  }

  ghost predicate Inv(s: State) {
    Logged(s) && forall id :: id in s.sessions ==> Agrees(s.sessions[id], Mine(s.rows, s.accepted, id))
  }

  lemma IngestLogs(s: State, e: Incoming, id: SessionId, idle: int)
    requires Logged(s) && !Duplicate(s.rows, e)
    ensures Logged(Apply(s, Ingest(e, id), idle))
  {
  }

  lemma MineGrows(s: State, e: Incoming, id: SessionId, idle: int, k: SessionId)
    requires Logged(s) && !Duplicate(s.rows, e)
    ensures var t := Apply(s, Ingest(e, id), idle);
            |t.rows| == |t.accepted|
            && Mine(t.rows, t.accepted, k) == Mine(s.rows, s.accepted, k) + if k == id then [e] else []
  {
    var t := Apply(s, Ingest(e, id), idle);
    var n := |s.rows|;
    assert t.rows[..n] == s.rows && t.accepted[..n] == s.accepted;
  }

  lemma IngestKeepsAgreement(s: State, e: Incoming, id: SessionId)
    requires Inv(s)
    ensures Agrees(Touched(Base(s.sessions, e, id), e), Mine(s.rows, s.accepted, id) + [e])
  {
    var before := Mine(s.rows, s.accepted, id);
    if id in s.sessions {
      TouchedAgrees(s.sessions[id], before, e);
    } else {
      NobodysEvents(s.rows, s.accepted, id);
      assert before + [e] == [e];
      FreshAgrees(e);
    }
  }

  /** After an ingestion session `k` still agrees with its events. */
  lemma IngestKeepsSession(s: State, e: Incoming, id: SessionId, idle: int, k: SessionId)
    requires Inv(s) && !Duplicate(s.rows, e) && (k in s.sessions || k == id)
    ensures var t := Apply(s, Ingest(e, id), idle);
            |t.rows| == |t.accepted| && k in t.sessions && Agrees(t.sessions[k], Mine(t.rows, t.accepted, k))
  {
    var t, mine := Apply(s, Ingest(e, id), idle), Mine(s.rows, s.accepted, k);
    MineGrows(s, e, id, idle, k);
    if k == id {
      IngestKeepsAgreement(s, e, id);
      AgreesWhenEqual(Touched(Base(s.sessions, e, id), e), mine + [e], t.sessions[k], Mine(t.rows, t.accepted, k));
    } else {
      assert mine + [] == mine;
      AgreesWhenEqual(s.sessions[k], mine, t.sessions[k], Mine(t.rows, t.accepted, k));
    }
  }

  lemma AgreesWhenEqual(a: Session, es: seq<Incoming>, b: Session, fs: seq<Incoming>)
    requires Agrees(a, es) && a == b && es == fs
    ensures Agrees(b, fs)
  {
  }

  lemma StepKeepsInv(s: State, a: Action, idle: int)
    requires Inv(s)
    ensures Inv(Apply(s, a, idle))
  {
    if a.Ingest? && !Duplicate(s.rows, a.event) {
      var t := Apply(s, a, idle);
      IngestLogs(s, a.event, a.id, idle);
      forall k | k in t.sessions ensures Agrees(t.sessions[k], Mine(t.rows, t.accepted, k)) {
        IngestKeepsSession(s, a.event, a.id, idle, k);
      }
    }
  }

  /** Whatever is ingested and closed, every session's aggregates are the fold over its own accepted
      events, and no event of a tenant is stored twice. */
  lemma {:induction false} AggregatesAgreeWithTheLog(actions: seq<Action>, idle: int)
    ensures Inv(After(actions, idle))
  {
    if actions != [] {
      AggregatesAgreeWithTheLog(actions[..|actions| - 1], idle);
      StepKeepsInv(After(actions[..|actions| - 1], idle), actions[|actions| - 1], idle);
    }
  }

  /** Two runs that gave a session the same events in different orders leave it with the same
      aggregates. */
  lemma ArrivalOrderIsIrrelevant(a: seq<Action>, b: seq<Action>, idle: int, id: SessionId, jd: SessionId)
    requires id in After(a, idle).sessions && jd in After(b, idle).sessions
    requires |After(a, idle).rows| == |After(a, idle).accepted| && |After(b, idle).rows| == |After(b, idle).accepted|
    requires multiset(Mine(After(a, idle).rows, After(a, idle).accepted, id))
             == multiset(Mine(After(b, idle).rows, After(b, idle).accepted, jd))
    ensures AggregatesOf(After(a, idle).sessions[id]) == AggregatesOf(After(b, idle).sessions[jd])
  {
    AggregatesAgreeWithTheLog(a, idle);
    AggregatesAgreeWithTheLog(b, idle);
    OrderIsIrrelevant(Mine(After(a, idle).rows, After(a, idle).accepted, id),
                      Mine(After(b, idle).rows, After(b, idle).accepted, jd));
  }

  /** Sending an accepted event again, at any later time, changes nothing at all. */
  lemma RepeatChangesNothing(s: State, more: seq<Action>, e: Incoming, id: SessionId, jd: SessionId, idle: int)
    ensures var t := Continue(Apply(s, Ingest(e, id), idle), more, idle); Apply(t, Ingest(e, jd), idle) == t
  {
    var t := Apply(s, Ingest(e, id), idle);
    assert !Duplicate(s.rows, e) ==> t.rows[|s.rows|] == Stored(e, id);
    RowsGrow(Apply(s, Ingest(e, id), idle), more, idle, e);
  }

  function Continue(s: State, more: seq<Action>, idle: int): State {
    if more == [] then s else Apply(Continue(s, more[..|more| - 1], idle), more[|more| - 1], idle)
  }

  lemma {:induction false} RowsGrow(s: State, more: seq<Action>, idle: int, e: Incoming)
    requires Duplicate(s.rows, e)
    ensures Duplicate(Continue(s, more, idle).rows, e)
  {
    if more != [] {
      var before := Continue(s, more[..|more| - 1], idle);
      RowsGrow(s, more[..|more| - 1], idle, e);
      var i :| 0 <= i < |before.rows| && before.rows[i].tenant == Tenant(e) && before.rows[i].source == SourceId(e);
      assert Continue(s, more, idle).rows[i] == before.rows[i];
    }
  }

  /** A closed session stays closed, and only an event that names it can still join it. */
  lemma ClosedStaysClosed(s: State, a: Action, idle: int, id: SessionId)
    requires Enabled(s, a, idle) && id in s.sessions && !s.sessions[id].open
    ensures id in Apply(s, a, idle).sessions && !Apply(s, a, idle).sessions[id].open
    ensures Apply(s, a, idle).sessions[id] != s.sessions[id] ==> a.Ingest? && id == Keyed(Key(a.event))
  {
  }

  // ---- The stored rows --------------------------------------------------------------------------

  /** What a stored row still says about its event: kinds are cut at 96 characters. */
  function Reread(e: Incoming): Incoming { e.(kind := Clip(e.kind, 96)) }

  function RereadAll(es: seq<Incoming>): seq<Incoming> { seq(|es|, i requires 0 <= i < |es| => Reread(es[i])) }

  ghost predicate Degrades(es: seq<Incoming>) { exists e :: e in es && Degrading(e.kind, e.status, e.degraded) }

  /** Some event shows a degradation within what is stored of it. */
  ghost predicate ShowsDegradation(es: seq<Incoming>) {
    exists e :: e in es && Degrading(Clip(e.kind, 96), e.status, e.degraded)
  }

  lemma ClipKeepsHints(kind: string)
    ensures Hints(Clip(kind, 96)) ==> Hints(kind)
  {
    var c := Clip(kind, 96);
    forall t | Contains(c, t) ensures Contains(kind, t) {
      var i: nat :| i <= |c| && OccursAt(c, t, i);
      assert OccursAt(kind, t, i);
    }
  }

  /** Cutting the kinds can change the degradation flag only. */
  lemma {:induction false} OnlyDegradationIsLost(es: seq<Incoming>)
    ensures Fold(RereadAll(es)) == Fold(es).(degradation := Fold(RereadAll(es)).degradation)
  {
    if es != [] {
      var n := |es| - 1;
      OnlyDegradationIsLost(es[..n]);
      assert RereadAll(es)[..n] == RereadAll(es[..n]);
    }
  }

  lemma RereadShows(es: seq<Incoming>)
    ensures Degrades(RereadAll(es)) <==> ShowsDegradation(es)
    ensures ShowsDegradation(es) ==> Degrades(es)
  {
    var rs := RereadAll(es);
    forall e | e in es ensures Reread(e) in rs {
      var i :| 0 <= i < |es| && es[i] == e;
      assert rs[i] == Reread(e);
    }
    forall e | e in es
      ensures Degrading(Clip(e.kind, 96), e.status, e.degraded) ==> Degrading(e.kind, e.status, e.degraded)
    {
      ClipKeepsHints(e.kind);
    }
    if Degrades(rs) {
      var r :| r in rs && Degrading(r.kind, r.status, r.degraded);
      var i :| 0 <= i < |rs| && rs[i] == r;
      assert es[i] in es;
    }
  }

  /** Reading events back from their cut kinds gives the same aggregates exactly when, if any of them
      degrades, some event shows it within the first 96 characters or by other means. */
  lemma RereadAgreesIff(es: seq<Incoming>)
    ensures Fold(RereadAll(es)) == Fold(es) <==> (Degrades(es) ==> ShowsDegradation(es))
  {
    OnlyDegradationIsLost(es);
    FoldDescribes(es);
    FoldDescribes(RereadAll(es));
    RereadShows(es);
  }

  /** A row seen as an event again. */
  function AsEvent(r: Row): Incoming {
    Incoming(r.source, "", r.tenant, r.user, "", r.conversation, r.trace, r.kind, r.status, r.at,
             r.dislike, r.degraded, r.faithfulness)
  }

  /** The stored events of one session, as its rows show them. */
  function StoredEvents(rows: seq<Row>, id: SessionId): seq<Incoming> {
    if rows == [] then []
    else
      var n := |rows| - 1;
      StoredEvents(rows[..n], id) + if rows[n].session == id then [AsEvent(rows[n])] else []
  }

  predicate SameSignals(a: Incoming, b: Incoming) {
    && a.kind == b.kind && a.status == b.status && a.at == b.at
    && a.dislike == b.dislike && a.degraded == b.degraded && a.faithfulness == b.faithfulness
  }

  ghost predicate AllSameSignals(es: seq<Incoming>, fs: seq<Incoming>) {
    |es| == |fs| && forall i :: 0 <= i < |es| ==> SameSignals(es[i], fs[i])
  }

  lemma {:induction false} FoldReadsSignals(es: seq<Incoming>, fs: seq<Incoming>)
    requires AllSameSignals(es, fs)
    ensures Fold(es) == Fold(fs)
  {
    if es != [] { FoldReadsSignals(es[..|es| - 1], fs[..|fs| - 1]); }
  }

  lemma {:induction false} StoredAreReread(rows: seq<Row>, accepted: seq<Incoming>, id: SessionId)
    requires |rows| == |accepted| && forall i :: 0 <= i < |rows| ==> rows[i] == Stored(accepted[i], rows[i].session)
    ensures AllSameSignals(StoredEvents(rows, id), RereadAll(Mine(rows, accepted, id)))
  {
    if rows != [] {
      var n := |rows| - 1;
      StoredAreReread(rows[..n], accepted[..n], id);
      RereadOfConcat(Mine(rows[..n], accepted[..n], id), if rows[n].session == id then [accepted[n]] else []);
    }
  }

  lemma RereadOfConcat(a: seq<Incoming>, b: seq<Incoming>)
    ensures RereadAll(a + b) == RereadAll(a) + RereadAll(b)
  {
  }

  /** After any run a session agrees with the fold over its stored rows exactly when it has no
      degrading event, or one that still shows it in its row. */
  lemma StoredRowsAgreeIff(actions: seq<Action>, idle: int, id: SessionId)
    requires id in After(actions, idle).sessions
    ensures var s := After(actions, idle);
            && Logged(s)
            && (AggregatesOf(s.sessions[id]) == Fold(StoredEvents(s.rows, id))
                <==> (Degrades(Mine(s.rows, s.accepted, id)) ==> ShowsDegradation(Mine(s.rows, s.accepted, id))))
  {
    var s := After(actions, idle);
    AggregatesAgreeWithTheLog(actions, idle);
    StoredAreReread(s.rows, s.accepted, id);
    FoldReadsSignals(StoredEvents(s.rows, id), RereadAll(Mine(s.rows, s.accepted, id)));
    RereadAgreesIff(Mine(s.rows, s.accepted, id));
  }

  /** In particular it agrees while all accepted kinds have at most 96 characters. */
  lemma ShortKindsAgree(actions: seq<Action>, idle: int, id: SessionId)
    requires id in After(actions, idle).sessions
    requires forall e :: e in After(actions, idle).accepted ==> |e.kind| <= 96
    ensures AggregatesOf(After(actions, idle).sessions[id]) == Fold(StoredEvents(After(actions, idle).rows, id))
  {
    var s := After(actions, idle);
    StoredRowsAgreeIff(actions, idle, id);
    MineAreAccepted(s.rows, s.accepted, id);
  }

  lemma {:induction false} MineAreAccepted(rows: seq<Row>, accepted: seq<Incoming>, id: SessionId)
    requires |rows| == |accepted|
    ensures forall e :: e in Mine(rows, accepted, id) ==> e in accepted
  {
    if rows != [] {
      var n := |rows| - 1;
      MineAreAccepted(rows[..n], accepted[..n], id);
      assert forall e :: e in accepted[..n] ==> e in accepted;
      assert accepted[n] in accepted;
    }
  }

  function LongKind(): string { seq(96, _ => 'x') + "fallback" }

  lemma LongKindHides()
    ensures Hints(LongKind()) && !Hints(Clip(LongKind(), 96))
  {
    assert OccursAt(LongKind(), "fallback", 96);
    var c := Clip(LongKind(), 96);
    forall t: string, i: nat | t in {"fallback", "degraded", "timeout"} ensures !OccursAt(c, t, i) {
      if i + |t| <= |c| { assert c[i..i + |t|][0] == 'x'; }
    }
  }

  function Hidden(): Incoming { Incoming("1", "", "t", "u", "", "", "", LongKind(), None, 0, false, false, None) }

  /** One event with such a kind: its session is degraded, and its stored row does not show it. */
  lemma LongKindDisagrees()
    ensures var actions := [Ingest(Hidden(), Generated(0))];
            && IsRun(actions, 1800) && Generated(0) in After(actions, 1800).sessions
            && AggregatesOf(After(actions, 1800).sessions[Generated(0)])
               != Fold(StoredEvents(After(actions, 1800).rows, Generated(0)))
  {
    var e, id := Hidden(), Generated(0);
    var actions := [Ingest(e, id)];
    FirstStep(e, id, 1800);
    var s := After(actions, 1800);
    StoredRowsAgreeIff(actions, 1800, id);
    MineOfOne(Stored(e, id), e);
    HiddenIsNotShown();
  }

  lemma MineOfOne(r: Row, e: Incoming)
    ensures Mine([r], [e], r.session) == [e]
  {
    assert [r][..0] == [] && [e][..0] == [];
  }

  lemma HiddenIsNotShown()
    ensures Degrades([Hidden()]) && !ShowsDegradation([Hidden()])
  {
    LongKindHides();
    assert Hidden() in [Hidden()];
  }

  /** The first event of a run opens a session. */
  lemma FirstStep(e: Incoming, id: SessionId, idle: int)
    requires if e.session != "" then id == Keyed(Key(e)) else id.Generated?
    ensures IsRun([Ingest(e, id)], idle)
    ensures After([Ingest(e, id)], idle) == State(map[id := Touched(NewSession(e), e)], [Stored(e, id)], [e])
  {
    var actions := [Ingest(e, id)];
    assert actions[..|actions| - 1] == [] && actions[|actions| - 1] == Ingest(e, id);
    assert IsRun([], idle) && After([], idle) == State(map[], [], []);
    assert NoneFound(map[], e, idle, FirstFilter(e)) && NoneFound(map[], e, idle, ByTrace(Trace(e)));
    assert e.session == "" ==> Opens(map[], id);
    assert Enabled(After([], idle), actions[|actions| - 1], idle);
  }

  // ---- Owners -----------------------------------------------------------------------------------

  predicate SameOwner(r: Row, s: Session) { r.tenant == s.tenant && r.user == s.user }

  /** Every stored event belongs to the tenant and user of its session. */
  ghost predicate Owned(s: State) {
    forall i :: 0 <= i < |s.rows| ==>
      s.rows[i].session in s.sessions && SameOwner(s.rows[i], s.sessions[s.rows[i].session])
  }

  /** Two events that name the same session for different owners. */
  predicate Collide(e: Incoming, f: Incoming) {
    e.session != "" && f.session != "" && Key(e) == Key(f) && (Tenant(e) != Tenant(f) || User(e) != User(f))
  }

  ghost predicate Collision(s: State) { exists e, f :: e in s.accepted && f in s.accepted && Collide(e, f) }

  /** Row `i` stores the event that named and opened session `key`. */
  ghost predicate Opener(s: State, i: nat, key: string)
    requires |s.rows| == |s.accepted| && Keyed(key) in s.sessions
  {
    && i < |s.rows| && s.accepted[i].session != "" && Key(s.accepted[i]) == key
    && SameOwner(s.rows[i], s.sessions[Keyed(key)])
  }

  /** Named sessions were opened by an event that names them; events that name a session are in it,
      the others are in a session of their owner. */
  ghost predicate Traceable(s: State) {
    && Logged(s)
    && (forall key :: Keyed(key) in s.sessions ==> exists i: nat :: Opener(s, i, key))
    && (forall i :: 0 <= i < |s.rows| ==>
          if s.accepted[i].session != "" then s.rows[i].session == Keyed(Key(s.accepted[i]))
          else SameOwner(s.rows[i], s.sessions[s.rows[i].session]))
  }

  /** No step changes the owner of a session. */
  lemma OwnersStay(s: State, a: Action, idle: int, id: SessionId)
    requires id in s.sessions
    ensures id in Apply(s, a, idle).sessions
    ensures Apply(s, a, idle).sessions[id].tenant == s.sessions[id].tenant
    ensures Apply(s, a, idle).sessions[id].user == s.sessions[id].user
  {
  }

  lemma OpenersStay(s: State, a: Action, idle: int, i: nat, key: string)
    requires |s.rows| == |s.accepted| && Keyed(key) in s.sessions && Opener(s, i, key)
    ensures var t := Apply(s, a, idle); |t.rows| == |t.accepted| && Keyed(key) in t.sessions && Opener(t, i, key)
  {
    OwnersStay(s, a, idle, Keyed(key));
  }

  /** An event that names no session joins one of its owner, and a new session has its owner. */
  lemma JoinsOwn(s: State, e: Incoming, id: SessionId, idle: int)
    requires Resolves(s.sessions, e, idle, id)
    ensures e.session == "" || id !in s.sessions ==>
              Base(s.sessions, e, id).tenant == Tenant(e) && Base(s.sessions, e, id).user == User(e)
    ensures e.session != "" ==> id == Keyed(Key(e))
    ensures e.session == "" && id !in s.sessions ==> id.Generated?
  {
  }

  lemma OpenersKept(s: State, a: Action, idle: int, key: string)
    requires Traceable(s) && Enabled(s, a, idle) && Keyed(key) in Apply(s, a, idle).sessions
    ensures var t := Apply(s, a, idle); |t.rows| == |t.accepted| && exists i: nat :: Opener(t, i, key)
  {
    var t := Apply(s, a, idle);
    if Keyed(key) in s.sessions {
      var i: nat :| Opener(s, i, key);
      OpenersStay(s, a, idle, i, key);
      assert Opener(t, i, key);
    } else {
      JoinsOwn(s, a.event, a.id, idle);
      assert Opener(t, |s.rows|, key);
    }
  }

  lemma RowKept(s: State, a: Action, idle: int, i: nat)
    requires Traceable(s) && Enabled(s, a, idle) && Logged(Apply(s, a, idle)) && i < |Apply(s, a, idle).rows|
    ensures var t := Apply(s, a, idle);
            if t.accepted[i].session != "" then t.rows[i].session == Keyed(Key(t.accepted[i]))
            else SameOwner(t.rows[i], t.sessions[t.rows[i].session])
  {
    if i < |s.rows| {
      OwnersStay(s, a, idle, s.rows[i].session);
    } else {
      JoinsOwn(s, a.event, a.id, idle);
    }
  }

  lemma StepKeepsTraceable(s: State, a: Action, idle: int)
    requires Traceable(s) && Enabled(s, a, idle)
    ensures Traceable(Apply(s, a, idle))
  {
    var t := Apply(s, a, idle);
    if a.Ingest? && !Duplicate(s.rows, a.event) { IngestLogs(s, a.event, a.id, idle); }
    assert Logged(t);
    forall key | Keyed(key) in t.sessions ensures exists i: nat :: Opener(t, i, key) { OpenersKept(s, a, idle, key); }
    forall i | 0 <= i < |t.rows|
      ensures if t.accepted[i].session != "" then t.rows[i].session == Keyed(Key(t.accepted[i]))
              else SameOwner(t.rows[i], t.sessions[t.rows[i].session])
    {
      RowKept(s, a, idle, i);
    }
  }

  lemma {:induction false} RunsAreTraceable(actions: seq<Action>, idle: int)
    requires IsRun(actions, idle)
    ensures Traceable(After(actions, idle))
  {
    if actions != [] {
      RunsAreTraceable(actions[..|actions| - 1], idle);
      StepKeepsTraceable(After(actions[..|actions| - 1], idle), actions[|actions| - 1], idle);
    }
  }

  /** After any run, sessions hold events of their own tenant and user only, exactly when no two
      accepted events name the same key for different owners. */
  lemma OwnedIffNoCollision(actions: seq<Action>, idle: int)
    requires IsRun(actions, idle)
    ensures Owned(After(actions, idle)) <==> !Collision(After(actions, idle))
  {
    var s := After(actions, idle);
    RunsAreTraceable(actions, idle);
    if Collision(s) {
      CollisionMixes(s);
    } else {
      forall i | 0 <= i < |s.rows|
        ensures s.rows[i].session in s.sessions && SameOwner(s.rows[i], s.sessions[s.rows[i].session])
      {
        if s.accepted[i].session != "" { NamedIsOwn(s, i); }
      }
    }
  }

  lemma CollisionMixes(s: State)
    requires Traceable(s) && Collision(s)
    ensures !Owned(s)
  {
    var e, f :| e in s.accepted && f in s.accepted && Collide(e, f);
    var i :| 0 <= i < |s.accepted| && s.accepted[i] == e;
    var j :| 0 <= j < |s.accepted| && s.accepted[j] == f;
    assert s.rows[i] == Stored(e, s.rows[i].session) && s.rows[j] == Stored(f, s.rows[j].session);
    var session := s.sessions[s.rows[i].session];
    assert !(SameOwner(s.rows[i], session) && SameOwner(s.rows[j], session));
  }

  lemma NamedIsOwn(s: State, i: nat)
    requires Traceable(s) && !Collision(s) && i < |s.rows| && s.accepted[i].session != ""
    ensures SameOwner(s.rows[i], s.sessions[s.rows[i].session])
  {
    var key := Key(s.accepted[i]);
    var k: nat :| Opener(s, k, key);
    assert s.accepted[i] in s.accepted && s.accepted[k] in s.accepted;
    assert !Collide(s.accepted[i], s.accepted[k]);
    assert s.rows[i] == Stored(s.accepted[i], s.rows[i].session);
    assert s.rows[k] == Stored(s.accepted[k], s.rows[k].session);
  }

  predicate Plain(s: string) { '|' !in s }

  lemma HeadIsUnique(a: string, b: string, k: string)
    requires Plain(a) && Plain(b) && a + "|" <= k && b + "|" <= k
    ensures a == b
  {
    assert k[|a|] == '|' && k[|b|] == '|';
    assert forall i :: 0 <= i < |a| ==> k[i] == a[i] && k[i] in a;
    assert forall i :: 0 <= i < |b| ==> k[i] == b[i] && k[i] in b;
    assert a == k[..|a|] && b == k[..|b|];
  }

  lemma OwnerIsUnique(a: string, u: string, b: string, v: string, k: string)
    requires Plain(a) && Plain(u) && Plain(b) && Plain(v)
    requires a + "|" + u + "|" <= k && b + "|" + v + "|" <= k
    ensures a == b && u == v
  {
    assert a + "|" <= a + "|" + u + "|" && b + "|" <= b + "|" + v + "|";
    HeadIsUnique(a, b, k);
    var rest := k[|a| + 1..];
    assert u + "|" == (a + "|" + u + "|")[|a| + 1..] && v + "|" == (b + "|" + v + "|")[|a| + 1..];
    HeadIsUnique(u, v, rest);
  }

  /** Names free of the separator never collide. */
  lemma PlainNamesNeverCollide(e: Incoming, f: Incoming)
    requires Plain(Tenant(e)) && Plain(User(e)) && Plain(Tenant(f)) && Plain(User(f))
    ensures !Collide(e, f)
  {
    if Key(e) == Key(f) {
      assert Tenant(e) + "|" + User(e) + "|" <= Key(e) && Tenant(f) + "|" + User(f) + "|" <= Key(f);
      OwnerIsUnique(Tenant(e), User(e), Tenant(f), User(f), Key(e));
    }
  }

  function Named(eventId: string, tenant: string, user: string): Incoming {
    Incoming(eventId, "", tenant, user, "s", "", "", "qa.completed", None, 0, false, false, None)
  }

  /** Two owners whose names hold the separator end up in one session. */
  lemma SeparatorInANameMixes()
    ensures var e, f := Named("1", "a", "b|c"), Named("2", "a|b", "c");
            var actions := [Ingest(e, Keyed(Key(e))), Ingest(f, Keyed(Key(f)))];
            IsRun(actions, 1800) && !Owned(After(actions, 1800))
  {
    var e, f := Named("1", "a", "b|c"), Named("2", "a|b", "c");
    var first, second := Ingest(e, Keyed(Key(e))), Ingest(f, Keyed(Key(f)));
    var actions := [first, second];
    FirstStep(e, Keyed(Key(e)), 1800);
    assert actions[..1] == [first];
    assert !Duplicate(After([first], 1800).rows, f);
    var s := After(actions, 1800);
    assert s.accepted == [e, f] && e in s.accepted && f in s.accepted;
    assert "a" + "|" + "b|c" + "|" + "s" == "a|b" + "|" + "c" + "|" + "s";
    assert Collide(e, f);
    OwnedIffNoCollision(actions, 1800);
  }
}
