/** The concurrency limit of dispatch (run_service.dispatch_pending_runs and api.create_run), on top of
    the run protocol.  A dispatcher counts the active runs in one transaction and then wins and marks
    the runs it has selected one by one, in transactions of their own, so counts of several
    dispatchers interleave with each other's dispatching. */
module DispatchLimit {
  import opened Prelude
  import opened RunService
  import P = RunProtocol
  import Q = TaskQueue

  /** The protocol, and what each dispatcher has still to dispatch. */
  datatype State = State(s: P.System, plans: map<nat, seq<string>>)

  datatype Move =
    | Count(d: nat, ids: seq<string>)   // count the active runs and select the oldest waiting ones
    | Create(d: nat, id: string)        // a new run from the API, which its creator goes on to dispatch
    | Next(d: nat)                      // `dispatch_run` on the next selected run
    | Drop(d: nat)                      // the dispatcher dies
    | Other(e: P.Event)                 // any other step of the protocol

  predicate Live(r: TestRun) { r.status.Queued? || r.status.Running? || r.status.Evaluating? }

  function LiveIds(runs: map<string, TestRun>): set<string> { set id | id in runs && Live(runs[id]) }

  predicate Free(p: State, d: nat) { d !in p.s.dispatchers && (d in p.plans ==> p.plans[d] == []) }

  ghost predicate Enabled(p: State, limit: int, m: Move) {
    match m
    case Count(d, ids) => Free(p, d) && OldestWaiting(p.s.runs, Max(0, limit - |ActiveIds(p.s.runs)|), ids)
    case Create(d, id) => Free(p, d) && id !in p.s.runs && |LiveIds(p.s.runs)| < limit
    case Next(d) => d in p.plans && p.plans[d] != [] && d !in p.s.dispatchers
    case Drop(d) => d in p.plans
    case Other(e) => !e.Win? && P.Enabled(p.s, e)
  }

  ghost function Apply(p: State, limit: int, m: Move): State
    requires Enabled(p, limit, m)
  {
    match m
    case Count(d, ids) => p.(plans := p.plans[d := ids])
    case Create(d, id) => State(P.Apply(p.s, P.CreateRun(id)), p.plans[d := [id]])
    case Next(d) =>
      var id := p.plans[d][0];
      State(if id in p.s.runs && Waiting(p.s.runs[id]) then P.Apply(p.s, P.Win(d, id)) else p.s,
            p.plans[d := p.plans[d][1..]])
    case Drop(d) => p.(plans := p.plans - {d})
    case Other(e) => p.(s := P.Apply(p.s, e))
  }

  /** A dispatcher may stop at any point, and one that is free may count or take a creation whenever the
      code lets it: with whatever waiting runs the query selects, and below the limit. */
  lemma DispatchersAreFree(p: State, limit: int, d: nat, ids: seq<string>, id: string)
    ensures d in p.plans ==> Enabled(p, limit, Drop(d))
    ensures d !in p.s.dispatchers && d in p.plans && p.plans[d] != [] ==> Enabled(p, limit, Next(d))
    ensures (d !in p.s.dispatchers && (d !in p.plans || p.plans[d] == [])
             && var active := |ActiveIds(p.s.runs)|;
                OldestWaiting(p.s.runs, if active < limit then limit - active else 0, ids))
        ==> Enabled(p, limit, Count(d, ids))
    ensures (d !in p.s.dispatchers && (d !in p.plans || p.plans[d] == []) && id !in p.s.runs
             && |set x | x in p.s.runs && p.s.runs[x].status in {Queued, Running, Evaluating}| < limit)
        ==> Enabled(p, limit, Create(d, id))
  {
    assert LiveIds(p.s.runs) == set x | x in p.s.runs && p.s.runs[x].status in {Queued, Running, Evaluating};
  }

  predicate Counting(m: Move) { m.Count? || m.Create? }

  ghost predicate IsRun(p: State, limit: int, ms: seq<Move>)
    decreases |ms|
  {
    ms == [] || (Enabled(p, limit, ms[0]) && IsRun(Apply(p, limit, ms[0]), limit, ms[1..]))
  }

  ghost function After(p: State, limit: int, ms: seq<Move>): State
    requires IsRun(p, limit, ms)
    decreases |ms|
  {
    if ms == [] then p else After(Apply(p, limit, ms[0]), limit, ms[1..])
  }

  // ---- What is reserved ----------------------------------------------------------------------------

  predicate InFlight(p: State, id: string) { exists d :: d in p.s.dispatchers && p.s.dispatchers[d].run == id }

  predicate InPlan(p: State, id: string) { exists d :: d in p.plans && id in p.plans[d] }

  /** Not dispatched yet, and available now or after a reset. */
  predicate Winnable(r: TestRun) { r.status.Queued? && (r.dispatch.Pending? || r.dispatch.Dispatching?) }

  predicate Executed(s: P.System, id: string) { exists w :: w in s.phases && s.phases[w] == P.Executing(id) }

  /** Not over, or over with an executor left whose hand-over sets it back to `evaluating`. */
  predicate Alive(s: P.System, id: string) {
    && id in s.runs
    && (Live(s.runs[id]) || (Over(s.runs[id]) && PassesFinalCheck(s.runs[id]) && Executed(s, id)))
  }

  /** The run is active, or a dispatcher or an executor is on the way to making it active. */
  predicate Reserves(p: State, id: string) {
    && id in p.s.runs
    && (|| (Alive(p.s, id) && (p.s.runs[id].dispatch.Dispatched? || InFlight(p, id)))
        || (Winnable(p.s.runs[id]) && InPlan(p, id)))
  }

  function Reserved(p: State): set<string> { set id | id in p.s.runs && Reserves(p, id) }

  ghost predicate Known(p: State) {
    && P.Inv(p.s)
    && (forall d, id :: d in p.plans && id in p.plans[d] ==> id in p.s.runs)
    && (forall id :: id in p.s.runs ==> p.s.runs[id].createdAt <= p.s.q.now)
  }

  lemma AgesKept(s: P.System, e: P.Event)
    requires P.Enabled(s, e) && forall id :: id in s.runs ==> s.runs[id].createdAt <= s.q.now
    ensures var t := P.Apply(s, e); forall id :: id in t.runs ==> t.runs[id].createdAt <= t.q.now
  {
  }

  lemma KnownStep(p: State, limit: int, m: Move)
    requires Known(p) && Enabled(p, limit, m)
    ensures Known(Apply(p, limit, m))
  {
    match m
    case Count(_, _) =>
    case Drop(_) =>
    case Create(_, id) => KnownEvent(p.s, P.CreateRun(id));
    case Other(e) => KnownEvent(p.s, e);
    case Next(d) =>
      var id := p.plans[d][0];
      if id in p.s.runs && Waiting(p.s.runs[id]) { KnownEvent(p.s, P.Win(d, id)); }
      assert forall x :: x in p.plans[d][1..] ==> x in p.plans[d];
  }

  lemma KnownEvent(s: P.System, e: P.Event)
    requires P.Inv(s) && P.Enabled(s, e) && forall id :: id in s.runs ==> s.runs[id].createdAt <= s.q.now
    ensures var t := P.Apply(s, e);
            P.Inv(t) && s.runs.Keys <= t.runs.Keys && forall id :: id in t.runs ==> t.runs[id].createdAt <= t.q.now
  {
    P.StepKeepsInv(s, e);
    P.RunsGrow(s, e);
    AgesKept(s, e);
  }

  /** A protocol step other than a win puts nobody in flight. */
  lemma FlightsEnd(p: State, limit: int, e: P.Event, id: string)
    requires Enabled(p, limit, Other(e)) && InFlight(Apply(p, limit, Other(e)), id)
    ensures InFlight(p, id)
  {
    var q := Apply(p, limit, Other(e));
    var d :| d in q.s.dispatchers && q.s.dispatchers[d].run == id;
    assert d in p.s.dispatchers && p.s.dispatchers[d].run == id;
  }

  /** Nobody begins a run that is over, so nothing but a new run comes to life. */
  lemma AliveStep(s: P.System, e: P.Event, id: string)
    requires P.Inv(s) && P.Enabled(s, e) && id in s.runs && Alive(P.Apply(s, e), id)
    ensures Alive(s, id)
  {
    assert P.RunInv(s, id);
    if e.HandOver? && s.phases[e.w].run == id {
      assert s.phases[e.w] == P.Executing(id);
    } else if !Live(s.runs[id]) {
      var w :| w in P.Apply(s, e).phases && P.Apply(s, e).phases[w] == P.Executing(id);
      assert w in s.phases && s.phases[w] == P.Executing(id);
    }
  }

  /** What such a step does to one run, as far as reservation goes. */
  lemma RunStep(p: State, limit: int, e: P.Event, id: string)
    requires Known(p) && Enabled(p, limit, Other(e)) && id in p.s.runs
    ensures var r, r' := p.s.runs[id], P.NextRuns(p.s, e)[id];
            && id in P.NextRuns(p.s, e)
            && (Winnable(r') ==> Winnable(r))
            && (r'.dispatch.Dispatched? ==> r.dispatch.Dispatched? || InFlight(p, id))
  {
    if e.Mark? && p.s.dispatchers[e.d].run == id { assert InFlight(p, id); }
  }

  lemma OtherShrinks(p: State, limit: int, e: P.Event, id: string)
    requires Known(p) && Enabled(p, limit, Other(e))
    requires Reserves(Apply(p, limit, Other(e)), id)
    ensures Reserves(p, id)
  {
    var q := Apply(p, limit, Other(e));
    assert InPlan(q, id) <==> InPlan(p, id);
    if InFlight(q, id) { FlightsEnd(p, limit, e, id); }
    if id in p.s.runs {
      RunStep(p, limit, e, id);
      if Alive(q.s, id) { AliveStep(p.s, e, id); }
    } else {
      NewRunReservesNothing(p, limit, e, id);
    }
  }

  lemma NewRunReservesNothing(p: State, limit: int, e: P.Event, id: string)
    requires Known(p) && Enabled(p, limit, Other(e)) && id !in p.s.runs
    ensures !Reserves(Apply(p, limit, Other(e)), id)
  {
    var q := Apply(p, limit, Other(e));
    assert P.DispatchInv(p.s);
    assert !InFlight(p, id) && !InPlan(p, id);
    if InFlight(q, id) { FlightsEnd(p, limit, e, id); }
    assert id in q.s.runs ==> q.s.runs[id] == NewRun(p.s.q.now);
  }

  lemma NextShrinks(p: State, limit: int, d: nat, id: string)
    requires Known(p) && Enabled(p, limit, Next(d)) && Reserves(Apply(p, limit, Next(d)), id)
    ensures Reserves(p, id)
  {
    var q := Apply(p, limit, Next(d));
    var head := p.plans[d][0];
    assert head in p.plans[d];
    if InPlan(q, id) {
      var k :| k in q.plans && id in q.plans[k];
      assert id in p.plans[k];
    }
    if InFlight(q, id) {
      var k :| k in q.s.dispatchers && q.s.dispatchers[k].run == id;
      assert (k in p.s.dispatchers && p.s.dispatchers[k].run == id) || id == head;
    }
  }

  /** Without a new count, nothing new is reserved. */
  lemma StepShrinks(p: State, limit: int, m: Move)
    requires Known(p) && Enabled(p, limit, m) && !Counting(m)
    ensures Reserved(Apply(p, limit, m)) <= Reserved(p)
  {
    var q := Apply(p, limit, m);
    forall id | id in Reserved(q) ensures id in Reserved(p) {
      match m
      case Next(d) => NextShrinks(p, limit, d, id);
      case Other(e) => OtherShrinks(p, limit, e, id);
      case Drop(d) => if InPlan(q, id) { var k :| k in q.plans && id in q.plans[k]; assert k in p.plans; }
    }
  }

  /** A count reserves exactly what it selects. */
  lemma CountReserves(p: State, limit: int, d: nat, ids: seq<string>)
    requires Enabled(p, limit, Count(d, ids))
    ensures Reserved(Apply(p, limit, Count(d, ids))) == Reserved(p) + set id | id in ids
  {
    var q := Apply(p, limit, Count(d, ids));
    forall id ensures InPlan(q, id) <==> InPlan(p, id) || id in ids {
      if InPlan(p, id) { var k :| k in p.plans && id in p.plans[k]; assert k in q.plans && q.plans[k] == p.plans[k]; }
      if id in ids { assert id in q.plans[d]; }
    }
    forall id | id in ids ensures id in WaitingIds(p.s.runs) {
      var i :| 0 <= i < |ids| && ids[i] == id;
    }
  }

  lemma CreateReserves(p: State, limit: int, d: nat, id: string)
    requires Known(p) && Enabled(p, limit, Create(d, id))
    ensures Reserved(Apply(p, limit, Create(d, id))) == Reserved(p) + {id}
  {
    var q := Apply(p, limit, Create(d, id));
    assert q.s.runs == p.s.runs[id := NewRun(p.s.q.now)] && q.s.dispatchers == p.s.dispatchers;
    forall x ensures InPlan(q, x) <==> InPlan(p, x) || x == id {
      if InPlan(p, x) { var k :| k in p.plans && x in p.plans[k]; assert k in q.plans && q.plans[k] == p.plans[k]; }
      if x == id { assert x in q.plans[d]; }
    }
    forall x ensures InFlight(q, x) <==> InFlight(p, x) {}
  }

  // ---- Exclusive counts keep the limit -----------------------------------------------------------

  /** No dispatcher is between its count and its last mark. */
  ghost predicate Quiet(p: State) { p.s.dispatchers == map[] && forall d :: d in p.plans ==> p.plans[d] == [] }

  /** Quiet, and no finished run is about to come back. */
  ghost predicate Alone(p: State) {
    && Quiet(p)
    && (forall id :: id in p.s.runs && p.s.runs[id].dispatch.Dispatched? && Alive(p.s, id) ==> Live(p.s.runs[id]))
  }

  /** Every count is taken alone. */
  ghost predicate Exclusive(p: State, limit: int, ms: seq<Move>)
    requires IsRun(p, limit, ms)
    decreases |ms|
  {
    ms == [] || ((Counting(ms[0]) ==> Alone(p)) && Exclusive(Apply(p, limit, ms[0]), limit, ms[1..]))
  }

  lemma AloneReserves(p: State)
    requires Alone(p)
    ensures Reserved(p) == ActiveIds(p.s.runs)
  {
  }

  lemma ActiveIsReserved(p: State)
    ensures ActiveIds(p.s.runs) <= Reserved(p)
  {
  }

  lemma AloneCountFits(p: State, limit: int, m: Move)
    requires Known(p) && Enabled(p, limit, m) && Counting(m) && Alone(p) && |Reserved(p)| <= limit
    ensures |Reserved(Apply(p, limit, m))| <= limit
  {
    AloneReserves(p);
    match m
    case Count(d, ids) =>
      CountReserves(p, limit, d, ids);
      DistinctSize(ids);
      UnionSize(Reserved(p), set id | id in ids);
    case Create(d, id) =>
      CreateReserves(p, limit, d, id);
      assert Reserved(p) + {id} <= LiveIds(p.s.runs) + {id};
      SubsetCardinality(Reserved(p) + {id}, LiveIds(p.s.runs) + {id});
      UnionSize(LiveIds(p.s.runs), {id});
  }

  lemma UnionSize<T>(a: set<T>, b: set<T>)
    ensures |a + b| <= |a| + |b|
  {
    assert |a + b| == |a| + |b| - |a * b|;
  }

  /** If every dispatcher counts only while no other one is between its count and its last mark and
      while no finished run is about to come back, the limit holds in every run, whatever workers,
      judges and operators do. */
  lemma {:induction false} ExclusiveCountsHold(p: State, limit: int, ms: seq<Move>)
    requires Known(p) && IsRun(p, limit, ms) && Exclusive(p, limit, ms) && |Reserved(p)| <= limit
    ensures |ActiveIds(After(p, limit, ms).s.runs)| <= |Reserved(After(p, limit, ms))| <= limit
    decreases |ms|
  {
    if ms == [] {
      ActiveIsReserved(p);
      SubsetCardinality(ActiveIds(p.s.runs), Reserved(p));
    } else {
      var q := Apply(p, limit, ms[0]);
      KnownStep(p, limit, ms[0]);
      if Counting(ms[0]) {
        AloneCountFits(p, limit, ms[0]);
      } else {
        StepShrinks(p, limit, ms[0]);
        SubsetCardinality(Reserved(q), Reserved(p));
      }
      ExclusiveCountsHold(q, limit, ms[1..]);
    }
  }

  // ---- The exact capacity -------------------------------------------------------------------------

  /** A run without counts. */
  ghost predicate Calm(p: State, limit: int, ms: seq<Move>)
    decreases |ms|
  {
    ms == [] || (Enabled(p, limit, ms[0]) && !Counting(ms[0]) && Calm(Apply(p, limit, ms[0]), limit, ms[1..]))
  }

  lemma {:induction false} CalmRuns(p: State, limit: int, ms: seq<Move>)
    requires Calm(p, limit, ms)
    ensures IsRun(p, limit, ms)
    decreases |ms|
  {
    if ms != [] { CalmRuns(Apply(p, limit, ms[0]), limit, ms[1..]); }
  }

  ghost predicate Leads(p: State, limit: int, q: State) {
    exists ms :: Calm(p, limit, ms) && IsRun(p, limit, ms) && After(p, limit, ms) == q
  }

  lemma LeadsNowhere(p: State, limit: int)
    ensures Leads(p, limit, p)
  {
    assert Calm(p, limit, []) && IsRun(p, limit, []) && After(p, limit, []) == p;
  }

  lemma LeadsOn(p: State, limit: int, m: Move, q: State)
    requires Enabled(p, limit, m) && !Counting(m) && Leads(Apply(p, limit, m), limit, q)
    ensures Leads(p, limit, q)
  {
    var rest :| Calm(Apply(p, limit, m), limit, rest) && IsRun(Apply(p, limit, m), limit, rest)
                && After(Apply(p, limit, m), limit, rest) == q;
    var ms := [m] + rest;
    assert ms[1..] == rest;
    assert Calm(p, limit, ms) && IsRun(p, limit, ms) && After(p, limit, ms) == q;
  }

  lemma LeadsStep(p: State, limit: int, m: Move)
    requires Enabled(p, limit, m) && !Counting(m)
    ensures Leads(p, limit, Apply(p, limit, m))
  {
    LeadsNowhere(Apply(p, limit, m), limit);
    LeadsOn(p, limit, m, Apply(p, limit, m));
  }

  lemma LeadsFurther(p: State, limit: int, q: State, r: State)
    requires Leads(p, limit, q) && Leads(q, limit, r)
    ensures Leads(p, limit, r)
  {
    var ms :| Calm(p, limit, ms) && IsRun(p, limit, ms) && After(p, limit, ms) == q;
    LeadsAlong(p, limit, ms, r);
  }

  lemma {:induction false} LeadsAlong(p: State, limit: int, ms: seq<Move>, r: State)
    requires Calm(p, limit, ms) && IsRun(p, limit, ms) && Leads(After(p, limit, ms), limit, r)
    ensures Leads(p, limit, r)
    decreases |ms|
  {
    if ms != [] {
      LeadsAlong(Apply(p, limit, ms[0]), limit, ms[1..], r);
      LeadsOn(p, limit, ms[0], r);
    }
  }

  lemma {:induction false} CalmShrinks(p: State, limit: int, ms: seq<Move>)
    requires Known(p) && Calm(p, limit, ms) && IsRun(p, limit, ms)
    ensures Reserved(After(p, limit, ms)) <= Reserved(p)
    decreases |ms|
  {
    if ms != [] {
      KnownStep(p, limit, ms[0]);
      StepShrinks(p, limit, ms[0]);
      CalmShrinks(Apply(p, limit, ms[0]), limit, ms[1..]);
    }
  }

  // ---- Using the capacity up --------------------------------------------------------------------

  /** Who is being dispatched is in some dispatcher's hands. */
  ghost predicate Fresh(p: State) {
    forall id :: id in p.s.runs && p.s.runs[id].status.Queued? && p.s.runs[id].dispatch.Dispatching? ==> InFlight(p, id)
  }

  /** `q` follows from `p` by dispatching on, with nothing lost. */
  ghost predicate Onward(p: State, limit: int, q: State) {
    && Leads(p, limit, q) && Known(q) && Fresh(q)
    && Reserved(q) == Reserved(p) && ActiveIds(p.s.runs) <= ActiveIds(q.s.runs)
  }

  lemma OnwardFurther(p: State, limit: int, q: State, r: State)
    requires Onward(p, limit, q) && Onward(q, limit, r)
    ensures Onward(p, limit, r)
  {
    LeadsFurther(p, limit, q, r);
  }

  /** Two minutes later the reset has freed every run that nobody holds. */
  lemma Freshen(p: State, limit: int) returns (q: State)
    requires Known(p)
    ensures Onward(p, limit, q)
  {
    var later := ClockOn(p, limit);
    q := ResetOn(later, limit);
    LeadsFurther(p, limit, later, q);
  }

  lemma ClockOn(p: State, limit: int) returns (q: State)
    requires Known(p)
    ensures Leads(p, limit, q) && Known(q) && q.s.runs == p.s.runs && Reserved(q) == Reserved(p)
    ensures forall id :: id in q.s.runs ==> q.s.runs[id].createdAt < q.s.q.now - 120
  {
    var m := Other(P.Clock(121));
    q := Apply(p, limit, m);
    LeadsStep(p, limit, m);
    KnownStep(p, limit, m);
    SamePlans(p, q);
  }

  lemma ResetOn(p: State, limit: int) returns (q: State)
    requires Known(p) && forall id :: id in p.s.runs ==> p.s.runs[id].createdAt < p.s.q.now - 120
    ensures Leads(p, limit, q) && Known(q) && Fresh(q)
    ensures Reserved(q) == Reserved(p) && ActiveIds(p.s.runs) <= ActiveIds(q.s.runs)
  {
    var m := Other(P.Reset);
    q := Apply(p, limit, m);
    LeadsStep(p, limit, m);
    KnownStep(p, limit, m);
    assert q.s.runs == ResetStuck(p.s.runs, p.s.q.now);
    ResetReserves(p, q);
  }

  lemma ResetReserves(p: State, q: State)
    requires p.plans == q.plans && p.s.phases == q.s.phases && p.s.dispatchers == q.s.dispatchers
    requires q.s.runs == ResetStuck(p.s.runs, p.s.q.now)
    requires forall id :: id in p.s.runs ==> p.s.runs[id].createdAt < p.s.q.now - 120
    ensures Reserved(q) == Reserved(p) && ActiveIds(p.s.runs) <= ActiveIds(q.s.runs) && Fresh(q)
  {
    SamePlans(p, q);
    SamePhases(p.s, q.s);
  }

  lemma SamePlans(p: State, q: State)
    requires p.plans == q.plans && p.s.dispatchers == q.s.dispatchers
    ensures forall id :: (InPlan(p, id) <==> InPlan(q, id)) && (InFlight(p, id) <==> InFlight(q, id))
  {
  }

  /** A dispatcher that holds a run takes the next step towards its mark. */
  lemma Towards(p: State, limit: int, d: nat) returns (q: State)
    requires Known(p) && Fresh(p) && d in p.s.dispatchers && !p.s.dispatchers[d].Enqueued?
    ensures Onward(p, limit, q) && q.plans == p.plans && q.s.runs == p.s.runs
    ensures exists x: P.Dispatcher :: x.run == p.s.dispatchers[d].run && q.s.dispatchers == p.s.dispatchers[d := x]
              && (x.Enqueued? || (x.Looked? && p.s.dispatchers[d].Won?))
  {
    var id := p.s.dispatchers[d].run;
    var e := if p.s.dispatchers[d].Won? then P.Look(d) else P.InsertTask(d);
    TowardsStep(p.s, d, e);
    q := Apply(p, limit, Other(e));
    LeadsStep(p, limit, Other(e));
    KnownStep(p, limit, Other(e));
    SameFlights(p, q, d);
  }

  lemma TowardsStep(s: P.System, d: nat, e: P.Event)
    requires d in s.dispatchers && !s.dispatchers[d].Enqueued?
    requires e == if s.dispatchers[d].Won? then P.Look(d) else P.InsertTask(d)
    ensures P.Enabled(s, e) && P.Apply(s, e).runs == s.runs && P.Apply(s, e).phases == s.phases
    ensures var x := P.NextDispatchers(s, e)[d];
            && P.Apply(s, e).dispatchers == s.dispatchers[d := x] && x.run == s.dispatchers[d].run
            && (x.Enqueued? || (x.Looked? && s.dispatchers[d].Won?))
  {
  }

  lemma SameFlights(p: State, q: State, d: nat)
    requires p.plans == q.plans && p.s.runs == q.s.runs && p.s.phases == q.s.phases && d in p.s.dispatchers
    requires exists x: P.Dispatcher :: x.run == p.s.dispatchers[d].run && q.s.dispatchers == p.s.dispatchers[d := x]
    ensures Reserved(q) == Reserved(p) && (Fresh(p) ==> Fresh(q))
  {
    forall id ensures InFlight(p, id) <==> InFlight(q, id) {
      if InFlight(p, id) { var k :| k in p.s.dispatchers && p.s.dispatchers[k].run == id; assert k in q.s.dispatchers; }
    }
    forall id ensures InPlan(p, id) <==> InPlan(q, id) {}
    SamePhases(p.s, q.s);
  }

  lemma SamePhases(s: P.System, t: P.System)
    requires s.phases == t.phases
    ensures forall id :: Executed(s, id) <==> Executed(t, id)
  {
  }

  /** The mark makes a live run active. */
  lemma MarkOn(p: State, limit: int, d: nat) returns (q: State)
    requires Known(p) && Fresh(p) && d in p.s.dispatchers && p.s.dispatchers[d].Enqueued?
    ensures var id := p.s.dispatchers[d].run;
            && Onward(p, limit, q) && id in p.s.runs && q.plans == p.plans && q.s.dispatchers == p.s.dispatchers - {d}
            && q.s.runs == p.s.runs[id := Marked(p.s.runs[id])]
  {
    var id := p.s.dispatchers[d].run;
    assert P.DispatchInv(p.s);
    q := Apply(p, limit, Other(P.Mark(d)));
    LeadsStep(p, limit, Other(P.Mark(d)));
    KnownStep(p, limit, Other(P.Mark(d)));
    MarkReserves(p, q, d, id);
  }

  lemma MarkReserves(p: State, q: State, d: nat, id: string)
    requires d in p.s.dispatchers && p.s.dispatchers[d].run == id && id in p.s.runs
    requires q.plans == p.plans && q.s.phases == p.s.phases && q.s.dispatchers == p.s.dispatchers - {d}
    requires q.s.runs == p.s.runs[id := Marked(p.s.runs[id])]
    ensures Reserved(q) == Reserved(p) && ActiveIds(p.s.runs) <= ActiveIds(q.s.runs) && (Fresh(p) ==> Fresh(q))
  {
    assert InFlight(p, id);
    forall x | x != id ensures InFlight(q, x) <==> InFlight(p, x) {
      if InFlight(p, x) { var k :| k in p.s.dispatchers && p.s.dispatchers[k].run == x; assert k in q.s.dispatchers; }
    }
    forall x ensures InPlan(p, x) <==> InPlan(q, x) {}
    SamePhases(p.s, q.s);
  }

  /** A dispatcher brings the run in its hands to its mark. */
  lemma FinishOne(p: State, limit: int, d: nat) returns (q: State)
    requires Known(p) && Fresh(p) && d in p.s.dispatchers
    ensures var id := p.s.dispatchers[d].run;
            && Onward(p, limit, q) && id in p.s.runs && q.plans == p.plans && d !in q.s.dispatchers
            && q.s.runs == p.s.runs[id := Marked(p.s.runs[id])]
  {
    var a := p;
    if !a.s.dispatchers[d].Enqueued? {
      a := Towards(p, limit, d);
      if !a.s.dispatchers[d].Enqueued? {
        var b := Towards(a, limit, d);
        OnwardFurther(p, limit, a, b);
        a := b;
      }
      q := MarkOn(a, limit, d);
      OnwardFurther(p, limit, a, q);
    } else {
      q := MarkOn(p, limit, d);
    }
  }

  /** A free dispatcher deals with the next run of its list: a waiting one becomes active. */
  lemma Advance(p: State, limit: int, d: nat) returns (q: State)
    requires Known(p) && Fresh(p) && d in p.plans && p.plans[d] != [] && d !in p.s.dispatchers
    ensures var id := p.plans[d][0];
            && Onward(p, limit, q) && q.plans == p.plans[d := p.plans[d][1..]] && d !in q.s.dispatchers
            && id in p.s.runs
            && q.s.runs == if Waiting(p.s.runs[id]) then p.s.runs[id := Marked(p.s.runs[id])] else p.s.runs
  {
    var id := p.plans[d][0];
    assert id in p.plans[d];
    var a := TakeNext(p, limit, d);
    if Waiting(p.s.runs[id]) {
      q := FinishOne(a, limit, d);
      OnwardFurther(p, limit, a, q);
    } else {
      q := a;
    }
  }

  lemma TakeNext(p: State, limit: int, d: nat) returns (q: State)
    requires Known(p) && Fresh(p) && d in p.plans && p.plans[d] != [] && d !in p.s.dispatchers
    requires p.plans[d][0] in p.s.runs
    ensures var id := p.plans[d][0];
            && Onward(p, limit, q) && q.plans == p.plans[d := p.plans[d][1..]]
            && (if Waiting(p.s.runs[id]) then
                  && q.s.runs == p.s.runs[id := p.s.runs[id].(dispatch := Dispatching)]
                  && d in q.s.dispatchers && q.s.dispatchers[d].run == id
                else q.s.runs == p.s.runs && d !in q.s.dispatchers)
  {
    q := Apply(p, limit, Next(d));
    LeadsStep(p, limit, Next(d));
    KnownStep(p, limit, Next(d));
    NextKeeps(p, limit, d);
  }

  lemma NextKeeps(p: State, limit: int, d: nat)
    requires Known(p) && Fresh(p) && Enabled(p, limit, Next(d))
    ensures var q := Apply(p, limit, Next(d));
            Reserved(q) == Reserved(p) && Fresh(q) && ActiveIds(p.s.runs) == ActiveIds(q.s.runs)
  {
    var q := Apply(p, limit, Next(d));
    var head := p.plans[d][0];
    assert head in p.plans[d];
    forall id | InFlight(p, id) ensures InFlight(q, id) {
      var k :| k in p.s.dispatchers && p.s.dispatchers[k].run == id;
      assert k in q.s.dispatchers && q.s.dispatchers[k] == p.s.dispatchers[k];
    }
    forall id | InPlan(p, id) && id != head ensures InPlan(q, id) {
      var k :| k in p.plans && id in p.plans[k];
      assert k in q.plans && id in q.plans[k] by { if k == d { assert p.plans[d] == [head] + q.plans[d]; } }
    }
    if Waiting(p.s.runs[head]) { assert d in q.s.dispatchers && q.s.dispatchers[d].run == head; }
    StepShrinks(p, limit, Next(d));
    forall id | id in Reserved(p) ensures id in Reserved(q) { assert Reserves(p, id); }
  }

  /** A waiting run on a free dispatcher's list becomes active. */
  lemma {:induction false} ActivateWaiting(p: State, limit: int, d: nat, id: string) returns (q: State)
    requires Known(p) && Fresh(p) && d in p.plans && id in p.plans[d] && d !in p.s.dispatchers
    requires id in p.s.runs && Waiting(p.s.runs[id])
    ensures Onward(p, limit, q) && id in ActiveIds(q.s.runs)
    decreases |p.plans[d]|
  {
    q := Advance(p, limit, d);
    if p.plans[d][0] != id {
      assert id in p.plans[d][1..];
      var r := ActivateWaiting(q, limit, d, id);
      OnwardFurther(p, limit, q, r);
      q := r;
    }
  }

  /** An executor that is left behind sets its finished run back to `evaluating`. */
  lemma ComeBack(p: State, limit: int, id: string) returns (q: State)
    requires Known(p) && Fresh(p) && Alive(p.s, id) && !Live(p.s.runs[id])
    ensures Onward(p, limit, q) && q.plans == p.plans && q.s.dispatchers == p.s.dispatchers
    ensures q.s.runs == p.s.runs[id := Handed(p.s.runs[id], "")]
  {
    var w :| w in p.s.phases && p.s.phases[w] == P.Executing(id);
    var m := Other(P.HandOver(w, ""));
    ComeBackStep(p.s, w, id);
    q := Apply(p, limit, m);
    LeadsStep(p, limit, m);
    KnownStep(p, limit, m);
    StepShrinks(p, limit, m);
    HandedReserves(p, q, w, id);
  }

  lemma ComeBackStep(s: P.System, w: Q.Worker, id: string)
    requires P.Inv(s) && Alive(s, id) && !Live(s.runs[id]) && w in s.phases && s.phases[w] == P.Executing(id)
    ensures P.Enabled(s, P.HandOver(w, ""))
    ensures var t := P.Apply(s, P.HandOver(w, ""));
            && t.runs == s.runs[id := Handed(s.runs[id], "")] && t.phases == s.phases[w := P.Judging(id)]
            && t.dispatchers == s.dispatchers
  {
    assert P.PhaseInv(s, w);
  }

  lemma HandedReserves(p: State, q: State, w: Q.Worker, id: string)
    requires Alive(p.s, id) && !Live(p.s.runs[id]) && q.plans == p.plans && q.s.dispatchers == p.s.dispatchers
    requires q.s.runs == p.s.runs[id := Handed(p.s.runs[id], "")]
    requires w in p.s.phases && p.s.phases[w] == P.Executing(id) && q.s.phases == p.s.phases[w := P.Judging(id)]
    ensures Reserved(p) <= Reserved(q) && ActiveIds(p.s.runs) <= ActiveIds(q.s.runs) && (Fresh(p) ==> Fresh(q))
  {
    SamePlans(p, q);
    forall x | x != id && Executed(p.s, x) ensures Executed(q.s, x) {
      var v :| v in p.s.phases && p.s.phases[v] == P.Executing(x);
      assert q.s.phases[v] == P.Executing(x);
    }
    forall x | x in Reserved(p) ensures x in Reserved(q) { assert Reserves(q, x); }
  }

  /** What is reserved and not over is made active by whoever dispatches it. */
  lemma ActivateLive(p: State, limit: int, id: string) returns (q: State)
    requires Known(p) && Fresh(p) && id in Reserved(p) && Live(p.s.runs[id]) && id !in ActiveIds(p.s.runs)
    ensures Onward(p, limit, q) && id in ActiveIds(q.s.runs)
  {
    if InFlight(p, id) {
      var d :| d in p.s.dispatchers && p.s.dispatchers[d].run == id;
      q := FinishOne(p, limit, d);
    } else {
      var d :| d in p.plans && id in p.plans[d];
      if d in p.s.dispatchers {
        assert p.s.dispatchers[d].run != id;
        var a := FinishOne(p, limit, d);
        q := ActivateWaiting(a, limit, d, id);
        OnwardFurther(p, limit, a, q);
      } else {
        q := ActivateWaiting(p, limit, d, id);
      }
    }
  }

  lemma Activate(p: State, limit: int, id: string) returns (q: State)
    requires Known(p) && Fresh(p) && id in Reserved(p) && id !in ActiveIds(p.s.runs)
    ensures Onward(p, limit, q) && id in ActiveIds(q.s.runs)
  {
    if Live(p.s.runs[id]) {
      q := ActivateLive(p, limit, id);
    } else {
      q := ComeBack(p, limit, id);
      if id !in ActiveIds(q.s.runs) {
        var a := q;
        q := ActivateLive(a, limit, id);
        OnwardFurther(p, limit, a, q);
      }
    }
  }

  /** Everything that is reserved can become active. */
  lemma {:induction false} ActivateAll(p: State, limit: int) returns (q: State)
    requires Known(p) && Fresh(p)
    ensures Onward(p, limit, q) && ActiveIds(q.s.runs) == Reserved(p)
    decreases |Reserved(p) - ActiveIds(p.s.runs)|
  {
    ActiveIsReserved(p);
    if id :| id in Reserved(p) && id !in ActiveIds(p.s.runs) {
      var a := Activate(p, limit, id);
      ProperSubsetCardinality(Reserved(a) - ActiveIds(a.s.runs), Reserved(p) - ActiveIds(p.s.runs));
      q := ActivateAll(a, limit);
      OnwardFurther(p, limit, a, q);
    } else {
      q := p;
      LeadsNowhere(p, limit);
    }
  }

  /** The limit holds in every continuation without counts. */
  ghost predicate AlwaysWithin(p: State, limit: int) {
    forall ms :: Calm(p, limit, ms) && IsRun(p, limit, ms) ==> |ActiveIds(After(p, limit, ms).s.runs)| <= limit
  }

  /** The exact condition.  As long as nobody counts again, the limit holds in every continuation if
      and only if it covers the active runs together with those that dispatchers still hold or have
      on their lists. */
  lemma LimitHoldsIff(p: State, limit: int)
    requires Known(p)
    ensures AlwaysWithin(p, limit) <==> |Reserved(p)| <= limit
  {
    if |Reserved(p)| <= limit {
      forall ms | Calm(p, limit, ms) && IsRun(p, limit, ms)
        ensures |ActiveIds(After(p, limit, ms).s.runs)| <= limit
      {
        CalmShrinks(p, limit, ms);
        ActiveIsReserved(After(p, limit, ms));
        SubsetCardinality(ActiveIds(After(p, limit, ms).s.runs), Reserved(p));
      }
    } else {
      var a := Freshen(p, limit);
      var q := ActivateAll(a, limit);
      LeadsFurther(p, limit, a, q);
      var ms :| Calm(p, limit, ms) && IsRun(p, limit, ms) && After(p, limit, ms) == q;
      assert ActiveIds(After(p, limit, ms).s.runs) == Reserved(p);
    }
  }

  /** So a count is safe exactly when what it selects fits beside everything reserved, and not only
      beside the active runs that it has counted. */
  lemma CountIsSafeIff(p: State, limit: int, d: nat, ids: seq<string>)
    requires Known(p) && Enabled(p, limit, Count(d, ids))
    ensures AlwaysWithin(Apply(p, limit, Count(d, ids)), limit) <==> |Reserved(p) + set id | id in ids| <= limit
  {
    KnownStep(p, limit, Count(d, ids));
    CountReserves(p, limit, d, ids);
    LimitHoldsIff(Apply(p, limit, Count(d, ids)), limit);
  }

  /** The API compares all live runs with the limit, dispatched or not; all the same its new run is
      safe exactly when it fits beside everything reserved. */
  lemma CreateIsSafeIff(p: State, limit: int, d: nat, id: string)
    requires Known(p) && Enabled(p, limit, Create(d, id))
    ensures AlwaysWithin(Apply(p, limit, Create(d, id)), limit) <==> |Reserved(p) + {id}| <= limit
  {
    KnownStep(p, limit, Create(d, id));
    CreateReserves(p, limit, d, id);
    LimitHoldsIff(Apply(p, limit, Create(d, id)), limit);
  }

  // ---- Two dispatchers exceed the limit --------------------------------------------------------------

  ghost predicate Reachable(limit: int, p: State) {
    exists ms :: IsRun(State(P.Init(60), map[]), limit, ms) && After(State(P.Init(60), map[]), limit, ms) == p
  }

  lemma {:induction false} Extend(p: State, limit: int, ms: seq<Move>, m: Move)
    requires IsRun(p, limit, ms) && Enabled(After(p, limit, ms), limit, m)
    ensures IsRun(p, limit, ms + [m]) && After(p, limit, ms + [m]) == Apply(After(p, limit, ms), limit, m)
    decreases |ms|
  {
    if ms == [] {
      assert [] + [m] == [m] && [m][1..] == [];
      assert IsRun(Apply(p, limit, m), limit, []);
    } else {
      assert (ms + [m])[1..] == ms[1..] + [m];
      Extend(Apply(p, limit, ms[0]), limit, ms[1..], m);
    }
  }

  lemma ReachStep(limit: int, p: State, m: Move)
    requires Reachable(limit, p) && Enabled(p, limit, m)
    ensures Reachable(limit, Apply(p, limit, m))
  {
    var start := State(P.Init(60), map[]);
    var ms :| IsRun(start, limit, ms) && After(start, limit, ms) == p;
    Extend(start, limit, ms, m);
  }

  lemma {:induction false} RunsAreKnown(p: State, limit: int, ms: seq<Move>)
    requires Known(p) && IsRun(p, limit, ms)
    ensures Known(After(p, limit, ms))
    decreases |ms|
  {
    if ms != [] {
      KnownStep(p, limit, ms[0]);
      RunsAreKnown(Apply(p, limit, ms[0]), limit, ms[1..]);
    }
  }

  /** From the empty system, exclusive counts keep any limit. */
  lemma ExclusiveFromTheStart(limit: nat, ms: seq<Move>)
    requires IsRun(State(P.Init(60), map[]), limit, ms) && Exclusive(State(P.Init(60), map[]), limit, ms)
    ensures |ActiveIds(After(State(P.Init(60), map[]), limit, ms).s.runs)| <= limit
  {
    var start := State(P.Init(60), map[]);
    P.InitInv(60);
    assert Reserved(start) == {};
    ExclusiveCountsHold(start, limit, ms);
  }

  function Pair(first: DispatchState): map<string, TestRun> {
    map["a" := NewRun(0).(dispatch := first), "b" := NewRun(0)]
  }

  /** Two runs wait, and the dispatchers have got this far. */
  function At(first: DispatchState, dispatchers: map<nat, P.Dispatcher>, plans: map<nat, seq<string>>): State {
    State(P.System(Q.Queue(0, 60, [], map[]), Pair(first), map[], dispatchers), plans)
  }

  lemma PairSelects()
    ensures OldestWaiting(Pair(Pending), 1, ["a"]) && ActiveIds(Pair(Pending)) == {}
    ensures OldestWaiting(Pair(Dispatching), 1, ["b"]) && ActiveIds(Pair(Dispatching)) == {}
  {
    assert WaitingIds(Pair(Pending)) == {"a", "b"};
    assert WaitingIds(Pair(Dispatching)) == {"b"};
  }

  lemma ReachPair()
    ensures Reachable(1, At(Pending, map[], map[]))
  {
    var start := State(P.Init(60), map[]);
    assert IsRun(start, 1, []) && After(start, 1, []) == start;
    ReachStep(1, start, Other(P.CreateRun("a")));
    var one := Apply(start, 1, Other(P.CreateRun("a")));
    assert one == State(P.System(Q.Queue(0, 60, [], map[]), map["a" := NewRun(0)], map[], map[]), map[]);
    ReachStep(1, one, Other(P.CreateRun("b")));
    assert Apply(one, 1, Other(P.CreateRun("b"))) == At(Pending, map[], map[]);
  }

  lemma ReachFirst()
    ensures Reachable(1, At(Dispatching, map[1 := P.Won("a")], map[1 := []]))
  {
    ReachPair();
    PairSelects();
    var p := At(Pending, map[], map[]);
    ReachStep(1, p, Count(1, ["a"]));
    var q := At(Pending, map[], map[1 := ["a"]]);
    assert Apply(p, 1, Count(1, ["a"])) == q;
    NextWins(q, At(Dispatching, map[1 := P.Won("a")], map[1 := []]));
    ReachStep(1, q, Next(1));
  }

  function Overlap(): State { At(Dispatching, map[1 := P.Won("a")], map[1 := [], 2 := ["b"]]) }

  /** The first dispatcher has counted and won its run; the second counts before it is marked. */
  lemma ReachOverlap()
    ensures Reachable(1, Overlap())
  {
    ReachFirst();
    PairSelects();
    var r := At(Dispatching, map[1 := P.Won("a")], map[1 := []]);
    ReachStep(1, r, Count(2, ["b"]));
    assert Apply(r, 1, Count(2, ["b"])) == Overlap();
  }

  lemma NextWins(q: State, r: State)
    requires q == At(Pending, map[], map[1 := ["a"]]) && r == At(Dispatching, map[1 := P.Won("a")], map[1 := []])
    ensures Enabled(q, 1, Next(1)) && Apply(q, 1, Next(1)) == r
  {
    assert q.plans[1][1..] == [];
    assert q.s.runs["a" := q.s.runs["a"].(dispatch := Dispatching)] == Pair(Dispatching);
  }

  lemma OverlapReservesTwo()
    ensures |Reserved(Overlap())| == 2
  {
    var p := Overlap();
    assert 1 in p.s.dispatchers && p.s.dispatchers[1].run == "a" && InFlight(p, "a");
    assert 2 in p.plans && "b" in p.plans[2] && InPlan(p, "b");
    assert Reserved(p) == {"a", "b"};
  }

  lemma ReachableIsKnown(limit: int, p: State)
    requires Reachable(limit, p)
    ensures Known(p)
  {
    var start := State(P.Init(60), map[]);
    var ms :| IsRun(start, limit, ms) && After(start, limit, ms) == p;
    P.InitInv(60);
    RunsAreKnown(start, limit, ms);
  }

  /** With a limit of one, two overlapping dispatchers can make two runs active. */
  lemma OverlapExceedsTheLimit()
    ensures Reachable(1, Overlap()) && !AlwaysWithin(Overlap(), 1)
  {
    ReachOverlap();
    ReachableIsKnown(1, Overlap());
    OverlapReservesTwo();
    LimitHoldsIff(Overlap(), 1);
  }

  // ---- A finished run comes back ---------------------------------------------------------------------

  lemma ReachWinning()
    ensures Reachable(1, State(P.Winning(), map[0 := []]))
  {
    var start := State(P.Init(60), map[]);
    assert IsRun(start, 1, []) && After(start, 1, []) == start;
    assert LiveIds(start.s.runs) == {};
    ReachStep(1, start, Create(0, "r"));
    var one := State(P.Snapshot(0, [], map[], NewRun(0), map[], map[]), map[0 := ["r"]]);
    assert Apply(start, 1, Create(0, "r")) == one;
    ReachStep(1, one, Next(0));
    assert one.plans[0][1..] == [];
    assert Apply(one, 1, Next(0)) == State(P.Winning(), map[0 := []]);
  }

  /** What the protocol can do without another win, it can do beside the dispatchers' lists. */
  lemma {:induction false} ReachAlong(limit: int, p: State, es: seq<P.Event>)
    requires Reachable(limit, p) && P.IsTrace(p.s, es) && P.Winless(es)
    ensures Reachable(limit, State(P.After(p.s, es), p.plans))
    decreases |es|
  {
    if es != [] {
      assert es[0] in es;
      ReachStep(limit, p, Other(es[0]));
      ReachAlong(limit, Apply(p, limit, Other(es[0])), es[1..]);
    }
  }

  /** The one run is completed, and worker 2 is still executing it. */
  function Left(): State { State(P.Both(P.ReportedRun(), P.Returned), map[0 := []]) }

  lemma ReachLeft()
    ensures Reachable(1, Left())
  {
    ReachWinning();
    P.FollowClose();
    var t := P.Both(P.ReportedRun(), P.Returned);
    var es :| P.IsTrace(P.Winning(), es) && P.After(P.Winning(), es) == t && P.Winless(es);
    ReachAlong(1, State(P.Winning(), map[0 := []]), es);
  }

  lemma LeftIsOpen()
    ensures Quiet(Left()) && LiveIds(Left().s.runs) == {} && Enabled(Left(), 1, Create(1, "b"))
  {
  }

  lemma LeftReserves()
    ensures Reserved(Left()) == {"r"}
  {
    assert 2 in Left().s.phases && Left().s.phases[2] == P.Executing("r");
    assert Executed(Left().s, "r");
  }

  /** Here nothing is live, so a limit of one lets a new run in; then the finished one can come back
      and two runs be active.  Being alone among the dispatchers does not make a count safe. */
  lemma ReturningRunExceedsTheLimit()
    ensures Reachable(1, Left()) && Quiet(Left()) && Enabled(Left(), 1, Create(1, "b"))
    ensures !AlwaysWithin(Apply(Left(), 1, Create(1, "b")), 1)
  {
    ReachLeft();
    ReachableIsKnown(1, Left());
    LeftIsOpen();
    LeftReserves();
    assert {"r"} + {"b"} == {"r", "b"};
    CreateIsSafeIff(Left(), 1, 1, "b");
  }

  // ---- Stranded runs block the dispatch --------------------------------------------------------------

  ghost predicate Blocking(p: State, ids: set<string>) {
    forall id :: id in ids ==> P.Stranded(p.s, id) && Active(p.s.runs[id])
  }

  predicate Cancels(m: Move, ids: set<string>) { m.Other? && m.e.Cancel? && m.e.id in ids }

  lemma BlockingStep(p: State, limit: int, m: Move, ids: set<string>)
    requires Known(p) && Enabled(p, limit, m) && Blocking(p, ids) && !Cancels(m, ids)
    ensures Blocking(Apply(p, limit, m), ids)
  {
    forall id | id in ids ensures var q := Apply(p, limit, m); P.Stranded(q.s, id) && Active(q.s.runs[id]) {
      match m
      case Count(_, _) =>
      case Drop(_) =>
      case Create(_, x) => P.StrandedStep(p.s, P.CreateRun(x), id);
      case Next(d) =>
        var x := p.plans[d][0];
        if x in p.s.runs && Waiting(p.s.runs[x]) { P.StrandedStep(p.s, P.Win(d, x), id); }
      case Other(e) => P.StrandedStep(p.s, e, id);
    }
  }

  /** As many stranded runs as the limit allows stop all dispatching: whatever happens short of
      cancelling one of them, every count selects nothing and no new run is accepted. */
  lemma {:induction false} StrandedRunsBlock(p: State, limit: nat, ms: seq<Move>, ids: set<string>)
    requires Known(p) && IsRun(p, limit, ms) && Blocking(p, ids) && limit <= |ids|
    requires forall m :: m in ms ==> !Cancels(m, ids)
    ensures forall m :: m in ms ==> !m.Create? && (m.Count? ==> m.ids == [])
    decreases |ms|
  {
    if ms != [] {
      var m := ms[0];
      assert m in ms && ms == [m] + ms[1..];
      SubsetCardinality(ids, ActiveIds(p.s.runs));
      SubsetCardinality(ActiveIds(p.s.runs), LiveIds(p.s.runs));
      KnownStep(p, limit, m);
      BlockingStep(p, limit, m, ids);
      StrandedRunsBlock(Apply(p, limit, m), limit, ms[1..], ids);
    }
  }

  /** With a limit of one, the death of one worker inside the judge is enough. */
  lemma OneDeathBlocksALimitOfOne(ms: seq<Move>)
    requires var p := State(P.Abandoned(), map[0 := []]); IsRun(p, 1, ms)
    requires forall m :: m in ms ==> !Cancels(m, {"r"})
    ensures Reachable(1, State(P.Abandoned(), map[0 := []]))
    ensures forall m :: m in ms ==> !m.Create? && (m.Count? ==> m.ids == [])
  {
    var p := State(P.Abandoned(), map[0 := []]);
    ReachWinning();
    P.FollowAbandoned();
    P.RunCanBeStranded();
    var es :| P.IsTrace(P.Winning(), es) && P.After(P.Winning(), es) == P.Abandoned() && P.Winless(es);
    ReachAlong(1, State(P.Winning(), map[0 := []]), es);
    ReachableIsKnown(1, p);
    StrandedRunsBlock(p, 1, ms, {"r"});
  }
}
