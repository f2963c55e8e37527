/** The whole local-backend protocol: the queue machine, the run rows, any number of dispatchers
    (scheduler ticks, API calls, the judge's own re-dispatch) and the workers that execute runs.
    One event is one database transaction; everything between two transactions is interleaved
    freely, and a dispatcher or a worker may die at any point. */
module RunProtocol {
  import opened Prelude
  import opened RunService
  import Q = TaskQueue

  /** How far a worker that holds a claim has got. */
  datatype Phase =
    | Holding                    // claimed, `execute_run` not entered yet
    | Executing(run: string)     // past the start transaction
    | Judging(run: string)       // past the final check, inside `evaluate_run`
    | Returned                   // `dispatch` returned without an exception

  /** How far a dispatcher that won a run has got inside `dispatch_run` and `enqueue`. */
  datatype Dispatcher = Won(run: string) | Looked(run: string) | Enqueued(run: string)

  datatype System = System(
    q: Q.Queue, runs: map<string, TestRun>,
    phases: map<Q.Worker, Phase>, dispatchers: map<nat, Dispatcher>)

  datatype Event =
    | Clock(delta: nat)
    | CreateRun(id: string)
    | OtherEnqueue(kind: string, key: Option<string>)           // dream and retention tasks
    | Win(d: nat, id: string) | Look(d: nat) | InsertTask(d: nat) | Mark(d: nat) | DispatcherDies(d: nat)
    | Reset
    | Cancel(id: string)
    | Claim(w: Q.Worker, host: string, pick: Option<nat>)
    | Start(w: Q.Worker, id: string, approved: bool)            // `execute_run` is entered
    | Poll(w: Q.Worker)                                         // a poll sees the cancellation
    | HandOver(w: Q.Worker, error: string)
    | Close(w: Q.Worker)
    | OtherWork(w: Q.Worker)
    | Finish(w: Q.Worker, error: string)                        // with an error: after any exception
    | Die(w: Q.Worker)

  function Init(lockTimeout: int): System {
    System(Q.Queue(0, lockTimeout, [], map[]), map[], map[], map[])
  }

  function TaskHeld(s: System, w: Q.Worker): Q.Task
    requires w in s.q.held && s.q.held[w] < |s.q.tasks|
  {
    s.q.tasks[s.q.held[w]]
  }

  predicate Holds(s: System, w: Q.Worker) { w in s.q.held && s.q.held[w] < |s.q.tasks| && w in s.phases }

  /** The queue step that an event takes, if any. */
  function QueueStep(s: System, e: Event): Option<Q.QEvent> {
    match e
    case Clock(delta) => Some(Q.Tick(delta))
    case OtherEnqueue(kind, key) => Some(Q.Insert(kind, None, key, MAX_ATTEMPTS))
    case InsertTask(d) =>
      if d in s.dispatchers && !Q.HasKey(s.q.tasks, "run", RunKey(s.dispatchers[d].run)) then
        Some(Q.Insert("run", Some(s.dispatchers[d].run), Some(RunKey(s.dispatchers[d].run)), MAX_ATTEMPTS))
      else None
    case Claim(w, host, pick) => Some(Q.Claim(w, host, pick))
    case Finish(w, error) => Some(Q.Finish(w, error))
    case Die(w) => Some(Q.Crash(w))
    case _ => None
  }

  predicate Enabled(s: System, e: Event) {
    && (var qe := QueueStep(s, e); qe.Some? ==> Q.Enabled(s.q, qe.value))
    && match e
       case Clock(_) => true
       case CreateRun(id) => id !in s.runs
       case OtherEnqueue(kind, _) => kind != "run"
       case Win(d, id) => d !in s.dispatchers && id in s.runs && Waiting(s.runs[id])
       case Look(d) => d in s.dispatchers && s.dispatchers[d].Won?
       case InsertTask(d) => d in s.dispatchers && s.dispatchers[d].Looked?
       case Mark(d) => d in s.dispatchers && s.dispatchers[d].Enqueued? && s.dispatchers[d].run in s.runs
       case DispatcherDies(d) => d in s.dispatchers
       case Reset => true
       case Cancel(id) => id in s.runs && !Over(s.runs[id])
       case Claim(w, _, _) => w !in s.phases
       case Start(w, id, _) => Holds(s, w) && s.phases[w].Holding? && id in s.runs
                               && TaskHeld(s, w).kind == "run" && TaskHeld(s, w).runId == Some(id)
       case Poll(w) => Holds(s, w) && s.phases[w].Executing? && s.phases[w].run in s.runs
                       && !PassesFinalCheck(s.runs[s.phases[w].run])
       case HandOver(w, _) => Holds(s, w) && s.phases[w].Executing? && s.phases[w].run in s.runs
       case Close(w) => Holds(s, w) && s.phases[w].Judging? && s.phases[w].run in s.runs
                        && !s.runs[s.phases[w].run].report
       case OtherWork(w) => Holds(s, w) && s.phases[w].Holding? && TaskHeld(s, w).kind != "run"
       case Finish(w, error) => Holds(s, w) && (error == "" ==> s.phases[w].Returned?)
       case Die(w) => Holds(s, w)
  }

  function NextQueue(s: System, e: Event): Q.Queue
    requires Enabled(s, e)
  {
    var qe := QueueStep(s, e);
    if qe.Some? then Q.Apply(s.q, qe.value) else s.q
  }

  function NextRuns(s: System, e: Event): map<string, TestRun>
    requires Enabled(s, e)
  {
    match e
    case CreateRun(id) => s.runs[id := NewRun(s.q.now)]
    case Win(_, id) => s.runs[id := s.runs[id].(dispatch := Dispatching)]
    case Mark(d) => var id := s.dispatchers[d].run; s.runs[id := Marked(s.runs[id])]
    case Reset => ResetStuck(s.runs, s.q.now)
    case Cancel(id) => s.runs[id := CancelledRun(s.runs[id], s.q.now)]
    case Start(_, id, approved) => s.runs[id := RunService.Started(s.runs[id], approved, s.q.now)]
    case HandOver(w, error) =>
      var id := s.phases[w].run;
      if PassesFinalCheck(s.runs[id]) then s.runs[id := Handed(s.runs[id], error)] else s.runs
    case Close(w) => var id := s.phases[w].run; s.runs[id := Closed(s.runs[id], s.q.now)]
    case _ => s.runs
  }

  function NextPhases(s: System, e: Event): map<Q.Worker, Phase>
    requires Enabled(s, e)
  {
    match e
    case Claim(w, _, pick) => if pick.Some? then s.phases[w := Holding] else s.phases
    case Start(w, id, approved) =>
      s.phases[w := if Startable(s.runs[id]) && approved then Executing(id) else Returned]
    case Poll(w) => s.phases[w := Returned]
    case HandOver(w, _) =>
      var id := s.phases[w].run;
      s.phases[w := if PassesFinalCheck(s.runs[id]) then Judging(id) else Returned]
    case Close(w) => s.phases[w := Returned]
    case OtherWork(w) => s.phases[w := Returned]
    case Finish(w, _) => s.phases - {w}
    case Die(w) => s.phases - {w}
    case _ => s.phases
  }

  function NextDispatchers(s: System, e: Event): map<nat, Dispatcher>
    requires Enabled(s, e)
  {
    match e
    case Win(d, id) => s.dispatchers[d := Won(id)]
    case Look(d) =>
      var id := s.dispatchers[d].run;
      s.dispatchers[d := if Q.HasKey(s.q.tasks, "run", RunKey(id)) then Enqueued(id) else Looked(id)]
    case InsertTask(d) => s.dispatchers[d := Enqueued(s.dispatchers[d].run)]
    case Mark(d) => s.dispatchers - {d}
    case DispatcherDies(d) => s.dispatchers - {d}
    case _ => s.dispatchers
  }

  function Apply(s: System, e: Event): System
    requires Enabled(s, e)
  {
    System(NextQueue(s, e), NextRuns(s, e), NextPhases(s, e), NextDispatchers(s, e))
  }

  predicate IsTrace(s: System, es: seq<Event>)
    decreases |es|
  {
    es == [] || (Enabled(s, es[0]) && IsTrace(Apply(s, es[0]), es[1..]))
  }

  function After(s: System, es: seq<Event>): System
    requires IsTrace(s, es)
    decreases |es|
  {
    if es == [] then s else After(Apply(s, es[0]), es[1..])
  }

  /** The environment is not restricted: time passes, runs are created, stuck ones reset and unfinished
      ones cancelled at will, and any dispatcher may win a waiting run, go on, or die at any point. */
  lemma DispatchersAreFree(s: System, d: nat, id: string, delta: nat)
    ensures Enabled(s, Clock(delta)) && Enabled(s, Reset) && (id !in s.runs ==> Enabled(s, CreateRun(id)))
    ensures id in s.runs && s.runs[id].status in {Queued, Running, RunStatus.Evaluating} ==> Enabled(s, Cancel(id))
    ensures d in s.dispatchers ==> Enabled(s, DispatcherDies(d))
    ensures d in s.dispatchers && s.dispatchers[d].Won? ==> Enabled(s, Look(d))
    ensures d in s.dispatchers && s.dispatchers[d].Looked? ==> Enabled(s, InsertTask(d))
    ensures d in s.dispatchers && s.dispatchers[d].Enqueued? && s.dispatchers[d].run in s.runs ==> Enabled(s, Mark(d))
    ensures (d !in s.dispatchers && id in s.runs && s.runs[id].status == Queued && s.runs[id].dispatch == Pending)
        ==> Enabled(s, Win(d, id))
  {
  }

  /** Nor are the workers: whoever holds a claim may die or meet any exception at any point, and enter the
      run of the claim. */
  lemma HoldersAreFree(s: System, w: Q.Worker, id: string, approved: bool, error: string)
    requires PhasesInv(s) && w in s.phases && s.q.held[w] < |s.q.tasks|
    ensures Enabled(s, Die(w)) && (error != "" || s.phases[w] == Returned ==> Enabled(s, Finish(w, error)))
    ensures s.phases[w] == Holding && id in s.runs && IsTaskOf(s, s.q.held[w], id) ==>
              Enabled(s, Start(w, id, approved))
    ensures s.phases[w] == Holding && s.q.tasks[s.q.held[w]].kind != "run" ==> Enabled(s, OtherWork(w))
  {
  }

  /** An executor may hand over and its judge close the run whatever the others do, and a cancellation is
      seen whenever there is one. */
  lemma ExecutorsAreFree(s: System, w: Q.Worker, id: string, error: string)
    requires PhasesInv(s) && w in s.phases && s.q.held[w] < |s.q.tasks|
    ensures s.phases[w] == Executing(id) ==> Enabled(s, HandOver(w, error))
    ensures s.phases[w] == Executing(id) && (s.runs[id].cancelRequested || s.runs[id].status == Cancelled) ==>
              Enabled(s, Poll(w))
    ensures s.phases[w] == Judging(id) && !s.runs[id].report ==> Enabled(s, Close(w))
  {
    assert PhaseInv(s, w);
  }

  lemma OneStep(s: System, e: Event)
    requires Enabled(s, e)
    ensures IsTrace(s, [e]) && After(s, [e]) == Apply(s, e)
  {
    var s' := Apply(s, e);
    assert [e][1..] == [];
    assert IsTrace(s', []) && After(s', []) == s';
  }

  // ---- Invariant ---------------------------------------------------------------------------

  ghost predicate IsTaskOf(s: System, i: nat, id: string) {
    i < |s.q.tasks| && s.q.tasks[i].kind == "run" && s.q.tasks[i].runId == Some(id)
  }

  ghost predicate HasTask(s: System, id: string) { exists i: nat :: IsTaskOf(s, i, id) }

  ghost predicate NobodyJudges(s: System, id: string) {
    forall w :: w in s.phases ==> s.phases[w] != Judging(id)
  }

  /** Run tasks carry the key of their run, so the unique constraint counts them. */
  ghost predicate TasksInv(s: System) {
    forall i :: 0 <= i < |s.q.tasks| && s.q.tasks[i].kind == "run" ==>
      s.q.tasks[i].runId.Some? && s.q.tasks[i].key == Some(RunKey(s.q.tasks[i].runId.value))
      && s.q.tasks[i].maxAttempts == MAX_ATTEMPTS
  }

  ghost predicate PhaseInv(s: System, w: Q.Worker)
    requires w in s.phases
  {
    && w in s.q.held
    && (s.phases[w].Executing? || s.phases[w].Judging? ==>
          s.phases[w].run in s.runs && IsTaskOf(s, s.q.held[w], s.phases[w].run))
  }

  ghost predicate PhasesInv(s: System) {
    && s.phases.Keys == s.q.held.Keys
    && (forall w :: w in s.phases ==> PhaseInv(s, w))
  }

  /** A run that is queued or running has not been handed to any judge and has no report. */
  ghost predicate RunInv(s: System, id: string)
    requires id in s.runs
  {
    var r := s.runs[id];
    RowOk(r) && (Startable(r) ==> NobodyJudges(s, id))
  }

  ghost predicate RunsInv(s: System) { forall id :: id in s.runs ==> RunInv(s, id) }

  /** A run marked as dispatched has its task. */
  ghost predicate DispatchInv(s: System) {
    && (forall d :: d in s.dispatchers ==> s.dispatchers[d].run in s.runs)
    && (forall d :: d in s.dispatchers && s.dispatchers[d].Enqueued? ==> HasTask(s, s.dispatchers[d].run))
    && (forall id :: id in s.runs && s.runs[id].dispatch.Dispatched? ==> HasTask(s, id))
  }

  ghost predicate Inv(s: System) {
    Q.Inv(s.q) && TasksInv(s) && PhasesInv(s) && RunsInv(s) && DispatchInv(s)
  }

  lemma InitInv(lockTimeout: int)
    ensures Inv(Init(lockTimeout))
  {
  }

  lemma QueueKept(s: System, e: Event)
    requires Enabled(s, e) && Q.Inv(s.q)
    ensures Q.Inv(NextQueue(s, e)) && |s.q.tasks| <= |NextQueue(s, e).tasks|
    ensures forall i, id :: IsTaskOf(s, i, id) ==> IsTaskOf(Apply(s, e), i, id)
  {
    var qe := QueueStep(s, e);
    if qe.Some? {
      Q.StepKeepsInv(s.q, qe.value);
      Q.RowsKept(s.q, qe.value);
    }
  }

  lemma TasksKept(s: System, e: Event)
    requires Enabled(s, e) && TasksInv(s)
    ensures TasksInv(Apply(s, e))
  {
    var qe := QueueStep(s, e);
    if qe.Some? { Q.RowsKept(s.q, qe.value); }
  }

  lemma KeyMeansTask(s: System, id: string)
    requires TasksInv(s)
    ensures Q.HasKey(s.q.tasks, "run", RunKey(id)) <==> HasTask(s, id)
  {
    if Q.HasKey(s.q.tasks, "run", RunKey(id)) {
      var i: nat :| i < |s.q.tasks| && s.q.tasks[i].kind == "run" && s.q.tasks[i].key == Some(RunKey(id));
      assert RunKey(id)[4..] == id;
      assert RunKey(s.q.tasks[i].runId.value)[4..] == s.q.tasks[i].runId.value;
      assert IsTaskOf(s, i, id);
    }
  }

  lemma HeldKept(s: System, e: Event, w: Q.Worker)
    requires Enabled(s, e) && s.phases.Keys == s.q.held.Keys && w in NextPhases(s, e)
    ensures w in NextQueue(s, e).held
    ensures w in s.phases ==> NextQueue(s, e).held[w] == s.q.held[w]
    ensures w !in s.phases ==> NextPhases(s, e)[w] == Holding
  {
  }

  lemma RunsGrow(s: System, e: Event)
    requires Enabled(s, e)
    ensures s.runs.Keys <= NextRuns(s, e).Keys
  {
  }

  /** A worker enters a run only through the queue row it holds. */
  lemma PhaseStep(s: System, e: Event, w: Q.Worker)
    requires Enabled(s, e) && w in s.phases && w in NextPhases(s, e) && PhaseInv(s, w)
    ensures var p := NextPhases(s, e)[w];
            p.Executing? || p.Judging? ==> p.run in s.runs && IsTaskOf(s, s.q.held[w], p.run)
  {
  }

  lemma PhaseKept(s: System, e: Event, w: Q.Worker)
    requires Enabled(s, e) && Q.Inv(s.q) && PhasesInv(s) && w in Apply(s, e).phases
    ensures PhaseInv(Apply(s, e), w)
  {
    QueueKept(s, e);
    HeldKept(s, e, w);
    RunsGrow(s, e);
    if w in s.phases { PhaseStep(s, e, w); }
  }

  lemma PhasesKept(s: System, e: Event)
    requires Inv(s) && Enabled(s, e)
    ensures PhasesInv(Apply(s, e))
  {
    var s' := Apply(s, e);
    forall w | w in s'.phases ensures PhaseInv(s', w) { PhaseKept(s, e, w); }
    assert s'.phases.Keys == s'.q.held.Keys;
  }

  lemma StillNobodyJudges(s: System, e: Event, id: string)
    requires Inv(s) && Enabled(s, e) && id in s.runs && id in Apply(s, e).runs && Startable(Apply(s, e).runs[id])
    ensures Startable(s.runs[id]) && NobodyJudges(Apply(s, e), id)
  {
    assert RunInv(s, id);
    if !(e.HandOver? && s.phases[e.w].run == id) { assert Startable(s.runs[id]) && NobodyJudges(s, id); }
  }

  lemma RunKept(s: System, e: Event, id: string)
    requires Inv(s) && Enabled(s, e) && id in s.runs
    ensures id in Apply(s, e).runs && RunInv(Apply(s, e), id)
  {
    assert RunInv(s, id);
    if Startable(Apply(s, e).runs[id]) { StillNobodyJudges(s, e, id); }
  }

  lemma RunsKept(s: System, e: Event)
    requires Inv(s) && Enabled(s, e)
    ensures RunsInv(Apply(s, e))
  {
    var s' := Apply(s, e);
    forall id | id in s'.runs ensures RunInv(s', id) {
      if id in s.runs { RunKept(s, e, id); }
    }
  }

  lemma TaskKept(s: System, e: Event, id: string)
    requires Enabled(s, e) && Q.Inv(s.q) && HasTask(s, id)
    ensures HasTask(Apply(s, e), id)
  {
    QueueKept(s, e);
    var i: nat :| IsTaskOf(s, i, id);
    assert IsTaskOf(Apply(s, e), i, id);
  }

  lemma DispatcherKept(s: System, e: Event, d: nat)
    requires Inv(s) && Enabled(s, e) && d in NextDispatchers(s, e) && NextDispatchers(s, e)[d].Enqueued?
    ensures HasTask(Apply(s, e), NextDispatchers(s, e)[d].run)
  {
    var id := NextDispatchers(s, e)[d].run;
    KeyMeansTask(s, id);
    if HasTask(s, id) {
      TaskKept(s, e, id);
    } else {
      assert e == InsertTask(d);
      Q.RowsKept(s.q, QueueStep(s, e).value);
      assert IsTaskOf(Apply(s, e), |s.q.tasks|, id);
    }
  }

  lemma DispatchKept(s: System, e: Event)
    requires Inv(s) && Enabled(s, e)
    ensures DispatchInv(Apply(s, e))
  {
    var s' := Apply(s, e);
    forall d | d in s'.dispatchers && s'.dispatchers[d].Enqueued? ensures HasTask(s', s'.dispatchers[d].run) {
      DispatcherKept(s, e, d);
    }
    forall id | id in s'.runs && s'.runs[id].dispatch.Dispatched? ensures HasTask(s', id) {
      assert HasTask(s, id);
      TaskKept(s, e, id);
    }
  }

  lemma StepKeepsInv(s: System, e: Event)
    requires Inv(s) && Enabled(s, e)
    ensures Inv(Apply(s, e))
  {
    QueueKept(s, e);
    TasksKept(s, e);
    PhasesKept(s, e);
    RunsKept(s, e);
    DispatchKept(s, e);
  }

  lemma {:induction false} TraceKeepsInv(s: System, es: seq<Event>)
    requires Inv(s) && IsTrace(s, es)
    ensures Inv(After(s, es))
    decreases |es|
  {
    if es != [] {
      StepKeepsInv(s, es[0]);
      TraceKeepsInv(Apply(s, es[0]), es[1..]);
    }
  }

  // ---- One task per run, and a bounded number of executions -----------------------------------------

  lemma OneTaskPerRun(s: System, i: nat, j: nat, id: string)
    requires Inv(s) && IsTaskOf(s, i, id) && IsTaskOf(s, j, id)
    ensures i == j
  {
    assert Q.SameKey(s.q.tasks[i], s.q.tasks[j]);
  }

  function Starts(es: seq<Event>, id: string): nat {
    if es == [] then 0 else (if es[0].Start? && es[0].id == id then 1 else 0) + Starts(es[1..], id)
  }

  ghost function HoldersOf(s: System, i: nat): set<Q.Worker> {
    set w | w in s.phases && w in s.q.held && s.q.held[w] == i && s.phases[w].Holding?
  }

  /** The executions a task can still start: its unused claims and the claims not yet entered. */
  ghost function Budget(s: System, i: nat): int
    requires i < |s.q.tasks|
  {
    s.q.tasks[i].maxAttempts - s.q.tasks[i].attempts + |HoldersOf(s, i)|
  }

  lemma AttemptsStep(s: System, e: Event, i: nat)
    requires Inv(s) && Enabled(s, e) && i < |s.q.tasks|
    ensures var s' := Apply(s, e);
            && i < |s'.q.tasks| && s'.q.tasks[i].maxAttempts == s.q.tasks[i].maxAttempts
            && s'.q.tasks[i].attempts == s.q.tasks[i].attempts + if e.Claim? && e.pick == Some(i) then 1 else 0
  {
  }

  lemma HoldersStep(s: System, e: Event, i: nat)
    requires Inv(s) && Enabled(s, e)
    ensures var before, after := HoldersOf(s, i), HoldersOf(Apply(s, e), i);
            if e.Claim? && e.pick == Some(i) then after == before + {e.w}
            else if e.Start? && s.q.held[e.w] == i then after == before - {e.w} && e.w in before
            else after <= before
  {
    var before, after := HoldersOf(s, i), HoldersOf(Apply(s, e), i);
    if e.Claim? && e.pick == Some(i) { assert after == before + {e.w}; }
    if e.Start? && s.q.held[e.w] == i { assert after == before - {e.w} && e.w in before; }
  }

  lemma StepSpendsBudget(s: System, e: Event, i: nat, id: string)
    requires Inv(s) && Enabled(s, e) && IsTaskOf(s, i, id)
    ensures IsTaskOf(Apply(s, e), i, id)
    ensures Budget(Apply(s, e), i) + (if e.Start? && e.id == id then 1 else 0) <= Budget(s, i)
  {
    QueueKept(s, e);
    AttemptsStep(s, e, i);
    HoldersStep(s, e, i);
    var before, after := HoldersOf(s, i), HoldersOf(Apply(s, e), i);
    if e.Start? && e.id == id {
      OneTaskPerRun(s, i, s.q.held[e.w], id);
    } else if !(e.Claim? && e.pick == Some(i)) {
      SubsetCardinality(after, before);
    }
  }

  lemma {:induction false} StartsWithinBudget(s: System, es: seq<Event>, i: nat, id: string)
    requires Inv(s) && IsTrace(s, es) && IsTaskOf(s, i, id)
    ensures Starts(es, id) <= Budget(s, i)
    decreases |es|
  {
    if es != [] {
      StepKeepsInv(s, es[0]);
      StepSpendsBudget(s, es[0], i, id);
      StartsWithinBudget(Apply(s, es[0]), es[1..], i, id);
    }
  }

  /** However dispatchers interleave, die and are reset, and however leases expire, a run is
      executed at most `max_attempts` times in all. */
  lemma {:induction false} ExecutionsAreBounded(s: System, es: seq<Event>, id: string)
    requires Inv(s) && IsTrace(s, es) && !HasTask(s, id)
    ensures Starts(es, id) <= 3
    decreases |es|
  {
    if es != [] {
      var s' := Apply(s, es[0]);
      StepKeepsInv(s, es[0]);
      if es[0].Start? && es[0].id == id { assert IsTaskOf(s, s.q.held[es[0].w], id); }
      if i: nat :| IsTaskOf(s', i, id) {
        assert !IsTaskOf(s, i, id);
        assert i == |s.q.tasks| && HoldersOf(s', i) == {};
        StartsWithinBudget(s', es[1..], i, id);
      } else {
        ExecutionsAreBounded(s', es[1..], id);
      }
    }
  }

  // ---- Winning -------------------------------------------------------------------------------

  function Wins(es: seq<Event>, id: string): nat {
    if es == [] then 0 else (if es[0].Win? && es[0].id == id then 1 else 0) + Wins(es[1..], id)
  }

  function Resets(es: seq<Event>): nat {
    if es == [] then 0 else (if es[0].Reset? then 1 else 0) + Resets(es[1..])
  }

  /** Only the reset of stuck runs makes a run available again: between two resets one dispatcher at
      most wins it, however many compete. */
  lemma {:induction false} OneWinPerReset(s: System, es: seq<Event>, id: string)
    requires IsTrace(s, es) && id in s.runs
    ensures Wins(es, id) <= Resets(es) + if s.runs[id].dispatch.Pending? then 1 else 0
    decreases |es|
  {
    if es != [] {
      RunsGrow(s, es[0]);
      AvailableStep(s, es[0], id);
      OneWinPerReset(Apply(s, es[0]), es[1..], id);
    }
  }

  lemma AvailableStep(s: System, e: Event, id: string)
    requires Enabled(s, e) && id in s.runs
    ensures id in NextRuns(s, e)
    ensures e.Win? && e.id == id ==> s.runs[id].dispatch.Pending? && !NextRuns(s, e)[id].dispatch.Pending?
    ensures NextRuns(s, e)[id].dispatch.Pending? ==> s.runs[id].dispatch.Pending? || e.Reset?
  {
  }

  // ---- Cancellation --------------------------------------------------------------------------

  /** Cancelled, and nothing in flight can write a report for it any more. */
  ghost predicate Settled(s: System, id: string) {
    && id in s.runs && s.runs[id].status.Cancelled? && s.runs[id].cancelRequested
    && (NobodyJudges(s, id) || s.runs[id].report)
  }

  lemma SettledStep(s: System, e: Event, id: string)
    requires Inv(s) && Enabled(s, e) && Settled(s, id)
    ensures Settled(Apply(s, e), id)
    ensures Apply(s, e).runs[id].report == s.runs[id].report
    ensures Apply(s, e).runs[id].evaluations == s.runs[id].evaluations
  {
    if NobodyJudges(s, id) { CancelledIsNotJudged(s, e, id); }
  }

  lemma CancelledIsNotJudged(s: System, e: Event, id: string)
    requires Enabled(s, e) && id in s.runs && s.runs[id].cancelRequested && NobodyJudges(s, id)
    ensures NobodyJudges(Apply(s, e), id)
  {
  }

  lemma {:induction false} SettledForever(s: System, es: seq<Event>, id: string)
    requires Inv(s) && IsTrace(s, es) && Settled(s, id)
    ensures Settled(After(s, es), id)
    ensures After(s, es).runs[id].report == s.runs[id].report
    ensures After(s, es).runs[id].evaluations == s.runs[id].evaluations
    decreases |es|
  {
    if es != [] {
      StepKeepsInv(s, es[0]);
      SettledStep(s, es[0], id);
      SettledForever(Apply(s, es[0]), es[1..], id);
    }
  }

  /** A cancellation that commits while the run is queued or running is final: in every
      continuation the run stays cancelled and gets neither evaluations nor a report. */
  lemma CancelBeforeJudgingIsFinal(s: System, id: string, es: seq<Event>)
    requires Inv(s) && Enabled(s, Cancel(id)) && Startable(s.runs[id])
    requires IsTrace(Apply(s, Cancel(id)), es)
    ensures var r := After(Apply(s, Cancel(id)), es).runs;
            id in r && r[id].status.Cancelled? && !r[id].report && r[id].evaluations == 0
  {
    var s' := Apply(s, Cancel(id));
    StepKeepsInv(s, Cancel(id));
    assert s'.phases == s.phases && Settled(s', id);
    SettledForever(s', es, id);
  }

  ghost function Executors(s: System, id: string): set<Q.Worker> {
    set w | w in s.phases && s.phases[w] == Executing(id)
  }

  /** A run that has left `queued` and `running`, whether handed over, closed, failed or cancelled,
      is never started again: the executors at work on it only become fewer. */
  lemma {:induction false} NotStartedAgain(s: System, es: seq<Event>, id: string)
    requires Inv(s) && IsTrace(s, es) && id in s.runs && !Startable(s.runs[id])
    ensures id in After(s, es).runs && !Startable(After(s, es).runs[id])
    ensures Executors(After(s, es), id) <= Executors(s, id)
    decreases |es|
  {
    if es != [] {
      StepKeepsInv(s, es[0]);
      ExecutorsStep(s, es[0], id);
      NotStartedAgain(Apply(s, es[0]), es[1..], id);
    }
  }

  lemma ExecutorsStep(s: System, e: Event, id: string)
    requires Enabled(s, e) && id in s.runs && !Startable(s.runs[id])
    ensures id in NextRuns(s, e) && !Startable(NextRuns(s, e)[id])
    ensures Executors(Apply(s, e), id) <= Executors(s, id)
  {
  }

  ghost predicate AlwaysCancelled(s: System, id: string) {
    forall es :: IsTrace(s, es) ==> id in After(s, es).runs && After(s, es).runs[id].status.Cancelled?
  }

  /** `cancel_run` also accepts a run that is being evaluated, and then the judge may overwrite
      it.  It is final exactly when no judge is at work on the run, or a report exists already. */
  lemma CancelIsFinalIff(s: System, id: string)
    requires Inv(s) && Enabled(s, Cancel(id))
    ensures AlwaysCancelled(Apply(s, Cancel(id)), id) <==> NobodyJudges(s, id) || s.runs[id].report
  {
    if NobodyJudges(s, id) || s.runs[id].report {
      CancelHolds(s, id);
    } else {
      CancelCanBeOverwritten(s, id);
    }
  }

  lemma CancelHolds(s: System, id: string)
    requires Inv(s) && Enabled(s, Cancel(id)) && (NobodyJudges(s, id) || s.runs[id].report)
    ensures AlwaysCancelled(Apply(s, Cancel(id)), id)
  {
    var s' := Apply(s, Cancel(id));
    StepKeepsInv(s, Cancel(id));
    assert NobodyJudges(s, id) ==> NobodyJudges(s', id);
    forall es | IsTrace(s', es) ensures id in After(s', es).runs && After(s', es).runs[id].status.Cancelled? {
      SettledForever(s', es, id);
    }
  }

  lemma CancelCanBeOverwritten(s: System, id: string)
    requires Inv(s) && Enabled(s, Cancel(id)) && !NobodyJudges(s, id) && !s.runs[id].report
    ensures !AlwaysCancelled(Apply(s, Cancel(id)), id)
  {
    var w :| w in s.phases && s.phases[w] == Judging(id);
    JudgeStays(s, w, id);
    CloseCompletes(Apply(s, Cancel(id)), w, id);
  }

  lemma JudgeStays(s: System, w: Q.Worker, id: string)
    requires Inv(s) && Enabled(s, Cancel(id)) && w in s.phases && s.phases[w] == Judging(id) && !s.runs[id].report
    ensures Enabled(Apply(s, Cancel(id)), Close(w)) && Apply(s, Cancel(id)).phases[w] == Judging(id)
  {
    assert PhaseInv(s, w);
  }

  lemma CloseCompletes(s: System, w: Q.Worker, id: string)
    requires Enabled(s, Close(w)) && s.phases[w] == Judging(id)
    ensures !AlwaysCancelled(s, id)
  {
    OneStep(s, Close(w));
    assert After(s, [Close(w)]).runs[id].status.Completed?;
  }

  // ---- Completion ----------------------------------------------------------------------------

  ghost predicate NobodyExecutes(s: System, id: string) {
    forall w :: w in s.phases ==> s.phases[w] != Executing(id)
  }

  ghost predicate Final(s: System, id: string) {
    id in s.runs && s.runs[id].status.Completed? && (s.runs[id].cancelRequested || NobodyExecutes(s, id))
  }

  lemma FinalStep(s: System, e: Event, id: string)
    requires Inv(s) && Enabled(s, e) && Final(s, id)
    ensures Final(Apply(s, e), id)
  {
    var s' := Apply(s, e);
    if !s.runs[id].cancelRequested { assert NobodyExecutes(s', id); }
  }

  lemma {:induction false} FinalForever(s: System, es: seq<Event>, id: string)
    requires Inv(s) && IsTrace(s, es) && Final(s, id)
    ensures Final(After(s, es), id)
    decreases |es|
  {
    if es != [] {
      StepKeepsInv(s, es[0]);
      FinalStep(s, es[0], id);
      FinalForever(Apply(s, es[0]), es[1..], id);
    }
  }

  ghost predicate AlwaysCompleted(s: System, id: string) {
    forall es :: IsTrace(s, es) ==> id in After(s, es).runs && After(s, es).runs[id].status.Completed?
  }

  /** `completed` is not terminal either: a second executor of the same run, started before the
      first one handed over, passes its own final check and sets the run back to `evaluating`.
      A completed run stays completed exactly when no such executor is left, or a cancellation
      had been requested. */
  lemma CompletedIsFinalIff(s: System, id: string)
    requires Inv(s) && id in s.runs && s.runs[id].status.Completed?
    ensures AlwaysCompleted(s, id) <==> s.runs[id].cancelRequested || NobodyExecutes(s, id)
  {
    if s.runs[id].cancelRequested || NobodyExecutes(s, id) {
      forall es | IsTrace(s, es) ensures id in After(s, es).runs && After(s, es).runs[id].status.Completed? {
        FinalForever(s, es, id);
      }
    } else {
      var w :| w in s.phases && s.phases[w] == Executing(id);
      OneStep(s, HandOver(w, ""));
      assert After(s, [HandOver(w, "")]).runs[id].status.Evaluating?;
    }
  }

  ghost predicate Regressed(s: System, id: string) {
    id in s.runs && s.runs[id].report && (s.runs[id].status.Evaluating? || s.runs[id].status.Cancelled?)
  }

  /** Such a run never completes again, because its report exists and the second closing
      transaction is always rolled back: it is left `evaluating` unless an operator cancels it. */
  lemma {:induction false} RegressedNeverCompletes(s: System, es: seq<Event>, id: string)
    requires Inv(s) && IsTrace(s, es) && Regressed(s, id)
    ensures Regressed(After(s, es), id)
    decreases |es|
  {
    if es != [] {
      StepKeepsInv(s, es[0]);
      assert Regressed(Apply(s, es[0]), id);
      RegressedNeverCompletes(Apply(s, es[0]), es[1..], id);
    }
  }

  /** At most one report, and its evaluations with it, however many executors overlap. */
  lemma {:induction false} OneEvaluationPerRun(s: System, es: seq<Event>, id: string)
    requires Inv(s) && IsTrace(s, es) && id in s.runs
    ensures id in After(s, es).runs
    ensures After(s, es).runs[id].evaluations == (if After(s, es).runs[id].report then 7 else 0)
    ensures s.runs[id].report ==> After(s, es).runs[id].report
    decreases |es|
  {
    if es != [] {
      StepKeepsInv(s, es[0]);
      OneEvaluationPerRun(Apply(s, es[0]), es[1..], id);
    }
  }

  // ---- Stranded runs ---------------------------------------------------------------------------

  /** Being evaluated, and nobody can close it any more. */
  ghost predicate Stranded(s: System, id: string) {
    && id in s.runs && s.runs[id].status.Evaluating?
    && (s.runs[id].report || (NobodyJudges(s, id) && NobodyExecutes(s, id)))
  }

  predicate Uncancelled(es: seq<Event>, id: string) { forall e :: e in es ==> e != Cancel(id) }

  lemma StrandedStep(s: System, e: Event, id: string)
    requires Inv(s) && Enabled(s, e) && Stranded(s, id) && e != Cancel(id)
    ensures Stranded(Apply(s, e), id)
    ensures s.runs[id].dispatch.Dispatched? ==> Apply(s, e).runs[id].dispatch.Dispatched?
  {
    EvaluatedRowStep(s, e, id);
    if !s.runs[id].report { NobodyBegins(s, e, id); }
  }

  lemma EvaluatedRowStep(s: System, e: Event, id: string)
    requires Enabled(s, e) && id in s.runs && s.runs[id].status.Evaluating? && e != Cancel(id)
    requires s.runs[id].report || NobodyJudges(s, id)
    ensures id in NextRuns(s, e) && NextRuns(s, e)[id].status.Evaluating?
    ensures NextRuns(s, e)[id].report == s.runs[id].report
    ensures s.runs[id].dispatch.Dispatched? ==> NextRuns(s, e)[id].dispatch.Dispatched?
  {
  }

  lemma NobodyBegins(s: System, e: Event, id: string)
    requires Enabled(s, e) && id in s.runs && !Startable(s.runs[id]) && NobodyJudges(s, id) && NobodyExecutes(s, id)
    ensures NobodyJudges(Apply(s, e), id) && NobodyExecutes(Apply(s, e), id)
  {
  }

  /** A stranded run is evaluated for ever, and counted as active for ever, unless an operator
      cancels it: the retried task finds it `evaluating` and returns at once. */
  lemma {:induction false} StrandedForever(s: System, es: seq<Event>, id: string)
    requires Inv(s) && IsTrace(s, es) && Stranded(s, id) && Uncancelled(es, id)
    ensures Stranded(After(s, es), id)
    ensures Active(s.runs[id]) ==> Active(After(s, es).runs[id])
    decreases |es|
  {
    if es != [] {
      assert es[0] in es && forall e :: e in es[1..] ==> e in es;
      StepKeepsInv(s, es[0]);
      StrandedStep(s, es[0], id);
      StrandedForever(Apply(s, es[0]), es[1..], id);
    }
  }

  ghost predicate CanBeClosed(s: System, id: string) {
    exists es :: IsTrace(s, es) && Uncancelled(es, id) && id in After(s, es).runs
                 && !After(s, es).runs[id].status.Evaluating?
  }

  /** Without a cancellation a run leaves `evaluating` in some continuation if and only if it has no
      report yet and a judge, or an executor that will hand it over, is at work on it. */
  lemma EvaluationEndsIff(s: System, id: string)
    requires Inv(s) && id in s.runs && s.runs[id].status.Evaluating?
    ensures CanBeClosed(s, id) <==> !s.runs[id].report && !(NobodyJudges(s, id) && NobodyExecutes(s, id))
  {
    if Stranded(s, id) {
      forall es | IsTrace(s, es) && Uncancelled(es, id) ensures Stranded(After(s, es), id) {
        StrandedForever(s, es, id);
      }
    } else if w :| w in s.phases && s.phases[w] == Judging(id) {
      JudgeCloses(s, w, id);
    } else {
      var w :| w in s.phases && s.phases[w] == Executing(id);
      ExecutorCloses(s, w, id);
    }
  }

  lemma JudgeCloses(s: System, w: Q.Worker, id: string)
    requires Inv(s) && w in s.phases && s.phases[w] == Judging(id) && !s.runs[id].report
    ensures CanBeClosed(s, id)
  {
    assert PhaseInv(s, w);
    OneStep(s, Close(w));
    assert Uncancelled([Close(w)], id) && After(s, [Close(w)]).runs[id].status.Completed?;
  }

  lemma ExecutorCloses(s: System, w: Q.Worker, id: string)
    requires Inv(s) && w in s.phases && s.phases[w] == Executing(id)
    requires s.runs[id].status.Evaluating? && !s.runs[id].report
    ensures CanBeClosed(s, id)
  {
    assert PhaseInv(s, w) && RunInv(s, id);
    var e := HandOver(w, "");
    var s' := Apply(s, e);
    StepKeepsInv(s, e);
    JudgeCloses(s', w, id);
    var es :| IsTrace(s', es) && Uncancelled(es, id) && id in After(s', es).runs
              && !After(s', es).runs[id].status.Evaluating?;
    assert ([e] + es)[1..] == es;
    assert IsTrace(s, [e] + es) && Uncancelled([e] + es, id) && After(s, [e] + es) == After(s', es);
  }

  // ---- The overlap really happens -----------------------------------------------------------------

  lemma {:induction false} Extend(s: System, es: seq<Event>, e: Event)
    requires IsTrace(s, es) && Enabled(After(s, es), e)
    ensures IsTrace(s, es + [e]) && After(s, es + [e]) == Apply(After(s, es), e)
    decreases |es|
  {
    if es == [] {
      OneStep(s, e);
      assert [] + [e] == [e];
    } else {
      assert (es + [e])[1..] == es[1..] + [e];
      Extend(Apply(s, es[0]), es[1..], e);
    }
  }

  ghost predicate Reachable(lockTimeout: int, s: System) {
    exists es :: IsTrace(Init(lockTimeout), es) && After(Init(lockTimeout), es) == s
  }

  lemma ReachStep(lockTimeout: int, s: System, e: Event)
    requires Reachable(lockTimeout, s) && Enabled(s, e)
    ensures Reachable(lockTimeout, Apply(s, e))
  {
    var es :| IsTrace(Init(lockTimeout), es) && After(Init(lockTimeout), es) == s;
    Extend(Init(lockTimeout), es, e);
  }

  /** A system with the one run "r", its row, its workers and its dispatcher. */
  function Snapshot(now: int, tasks: seq<Q.Task>, held: map<Q.Worker, nat>, r: TestRun,
                    phases: map<Q.Worker, Phase>, dispatchers: map<nat, Dispatcher>): System {
    System(Q.Queue(now, 60, tasks, held), map["r" := r], phases, dispatchers)
  }

  function RunTask(status: Q.Status, attempts: nat, runAfter: int, lockedBy: string, lockedAt: Option<int>): Q.Task {
    Q.Task("run", Some("r"), Some(RunKey("r")), status, attempts, 3, runAfter, 0, lockedBy, lockedAt, "", None)
  }

  function WaitingTask(): Q.Task { RunTask(Q.Queued, 0, 0, "", None) }

  function FirstClaim(): Q.Task { RunTask(Q.Running, 1, 0, "h", Some(0)) }

  function SecondClaim(): Q.Task { RunTask(Q.Running, 2, 61, "h", Some(61)) }

  function RunAt(status: RunStatus, dispatch: DispatchState, startedAt: Option<int>): TestRun {
    TestRun(status, dispatch, false, "", 0, startedAt, None, 0, false)
  }

  /** The run has been won: all the states below follow from here without another win. */
  function Winning(): System { Snapshot(0, [], map[], RunAt(Queued, Dispatching, None), map[], map[0 := Won("r")]) }

  ghost predicate Winless(es: seq<Event>) { forall e :: e in es ==> !e.Win? }

  ghost predicate Follows(t: System) {
    exists es :: IsTrace(Winning(), es) && After(Winning(), es) == t && Winless(es)
  }

  lemma FollowStep(s: System, e: Event, t: System)
    requires Follows(s) && Enabled(s, e) && !e.Win? && Apply(s, e) == t
    ensures Follows(t)
  {
    var es :| IsTrace(Winning(), es) && After(Winning(), es) == s && Winless(es);
    Extend(Winning(), es, e);
    assert Winless(es + [e]);
  }

  function Inserted(): System {
    Snapshot(0, [WaitingTask()], map[], RunAt(Queued, Dispatching, None), map[], map[0 := Enqueued("r")])
  }

  function Ready(): System { Snapshot(0, [WaitingTask()], map[], RunAt(Queued, Dispatched, None), map[], map[]) }

  function Held(): System {
    Snapshot(0, [FirstClaim()], map[1 := 0], RunAt(Queued, Dispatched, None), map[1 := Holding], map[])
  }

  function Replaying(now: int): System {
    Snapshot(now, [FirstClaim()], map[1 := 0], RunAt(Running, Dispatched, Some(0)), map[1 := Executing("r")], map[])
  }

  function Stolen(): System {
    Snapshot(61, [SecondClaim()], map[1 := 0, 2 := 0], RunAt(Running, Dispatched, Some(0)),
             map[1 := Executing("r"), 2 := Holding], map[])
  }

  function Both(r: TestRun, first: Phase): System {
    Snapshot(61, [SecondClaim()], map[1 := 0, 2 := 0], r, map[1 := first, 2 := Executing("r")], map[])
  }

  function ReportedRun(): TestRun { TestRun(Completed, Dispatched, false, "", 0, Some(61), Some(61), DIMENSIONS, true) }

  lemma ReachWinning()
    ensures Reachable(60, Winning())
  {
    var s0 := Init(60);
    assert IsTrace(s0, []) && After(s0, []) == s0;
    ReachStep(60, s0, CreateRun("r"));
    var s1 := Snapshot(0, [], map[], NewRun(0), map[], map[]);
    assert s1 == Apply(s0, CreateRun("r"));
    ReachStep(60, s1, Win(0, "r"));
    assert Winning() == Apply(s1, Win(0, "r"));
  }

  lemma FollowersAreReachable(t: System)
    requires Follows(t)
    ensures Reachable(60, t)
  {
    ReachWinning();
    var es :| IsTrace(Winning(), es) && After(Winning(), es) == t && Winless(es);
    ReachAlong(60, Winning(), es);
  }

  lemma {:induction false} ReachAlong(lockTimeout: int, s: System, es: seq<Event>)
    requires Reachable(lockTimeout, s) && IsTrace(s, es)
    ensures Reachable(lockTimeout, After(s, es))
    decreases |es|
  {
    if es != [] {
      ReachStep(lockTimeout, s, es[0]);
      ReachAlong(lockTimeout, Apply(s, es[0]), es[1..]);
    }
  }

  lemma FollowInserted()
    ensures Follows(Inserted())
  {
    var s := Winning();
    var t := s.(dispatchers := map[0 := Looked("r")]);
    assert IsTrace(s, []) && After(s, []) == s && Winless([]);
    FollowStep(s, Look(0), t);
    FollowStep(t, InsertTask(0), Inserted());
  }

  lemma FollowReady()
    ensures Follows(Ready())
  {
    FollowInserted();
    FollowStep(Inserted(), Mark(0), Ready());
  }

  lemma FollowHeld()
    ensures Follows(Held())
  {
    FollowReady();
    FollowStep(Ready(), Claim(1, "h", Some(0)), Held());
  }

  lemma FollowReplaying()
    ensures Follows(Replaying(0)) && Follows(Replaying(61))
  {
    FollowHeld();
    FollowStep(Held(), Start(1, "r", true), Replaying(0));
    FollowStep(Replaying(0), Clock(61), Replaying(61));
  }

  lemma FollowStolen()
    ensures Follows(Stolen())
  {
    FollowReplaying();
    FollowStep(Replaying(61), Claim(2, "h", Some(0)), Stolen());
  }

  lemma FollowBoth()
    ensures Follows(Both(RunAt(Running, Dispatched, Some(61)), Executing("r")))
  {
    FollowStolen();
    FollowStep(Stolen(), Start(2, "r", true), Both(RunAt(Running, Dispatched, Some(61)), Executing("r")));
  }

  lemma FollowHandOver()
    ensures Follows(Both(RunAt(Evaluating, Dispatched, Some(61)), Judging("r")))
  {
    FollowBoth();
    FollowStep(Both(RunAt(Running, Dispatched, Some(61)), Executing("r")), HandOver(1, ""),
               Both(RunAt(Evaluating, Dispatched, Some(61)), Judging("r")));
  }

  lemma FollowClose()
    ensures Follows(Both(ReportedRun(), Returned))
  {
    FollowHandOver();
    FollowStep(Both(RunAt(Evaluating, Dispatched, Some(61)), Judging("r")), Close(1), Both(ReportedRun(), Returned));
  }

  /** From the empty system a run can reach a state in which worker 1 has completed it and the
      final check of worker 2, whose claim followed an expired lease, sends it back for good. */
  lemma CompletedRunCanRegress()
    ensures exists s, e :: Reachable(60, s) && Enabled(s, e)
              && "r" in s.runs && s.runs["r"].status.Completed? && Regressed(Apply(s, e), "r")
  {
    FollowClose();
    var s := Both(ReportedRun(), Returned);
    FollowersAreReachable(s);
    assert Enabled(s, HandOver(2, "")) && Regressed(Apply(s, HandOver(2, "")), "r");
  }

  /** A run can be cancelled while a judge is at work on it, and then completes all the same. */
  lemma CancelledRunCanComplete()
    ensures exists s :: Reachable(60, s) && Enabled(s, Cancel("r")) && !AlwaysCancelled(Apply(s, Cancel("r")), "r")
  {
    FollowHandOver();
    var s := Both(RunAt(Evaluating, Dispatched, Some(61)), Judging("r"));
    FollowersAreReachable(s);
    ReachableKeepsInv(60, s);
    assert s.phases[1] == Judging("r");
    CancelCanBeOverwritten(s, "r");
  }

  /** The worker that evaluated the run is gone. */
  function Abandoned(): System {
    Snapshot(0, [FirstClaim()], map[], RunAt(Evaluating, Dispatched, Some(0)), map[], map[])
  }

  lemma FollowAbandoned()
    ensures Follows(Abandoned())
  {
    FollowReplaying();
    var run := RunAt(Evaluating, Dispatched, Some(0));
    var s := Snapshot(0, [FirstClaim()], map[1 := 0], run, map[1 := Judging("r")], map[]);
    FollowStep(Replaying(0), HandOver(1, ""), s);
    FollowStep(s, Die(1), Abandoned());
  }

  /** One death of a worker inside the judge strands its run: from then on it is never closed. */
  lemma RunCanBeStranded()
    ensures Reachable(60, Abandoned()) && Active(Abandoned().runs["r"]) && Stranded(Abandoned(), "r")
    ensures !CanBeClosed(Abandoned(), "r")
  {
    FollowAbandoned();
    FollowersAreReachable(Abandoned());
    ReachableKeepsInv(60, Abandoned());
    EvaluationEndsIff(Abandoned(), "r");
  }

  lemma ReachableKeepsInv(lockTimeout: int, s: System)
    requires Reachable(lockTimeout, s)
    ensures Inv(s)
  {
    var es :| IsTrace(Init(lockTimeout), es) && After(Init(lockTimeout), es) == s;
    InitInv(lockTimeout);
    TraceKeepsInv(Init(lockTimeout), es);
  }

  /** A task can be finished by one worker while another still holds a claim on it, so its terminal
      status is not final. */
  lemma TerminalTaskCanBeHeld()
    ensures exists s :: Reachable(60, s) && |s.q.tasks| == 1 && s.q.tasks[0].status.Succeeded? && Q.Held(s.q, 0)
  {
    FollowClose();
    var s := Both(ReportedRun(), Returned);
    FollowersAreReachable(s);
    ReachStep(60, s, Finish(1, ""));
    var t := Apply(s, Finish(1, ""));
    assert 2 in t.q.held && t.q.held[2] == 0;
  }
}
