/** Dispatch and cancellation of replay runs on the local backend (run_service.py), together with
    the transactions with which the executor and the judge move a run along (replay.execute_run,
    judge.evaluate_run).  Each function below is one row update; `RunStore` performs them. */
module RunService {
  import opened Prelude
  import Q = TaskQueue

  datatype RunStatus = Queued | Running | Evaluating | Completed | Failed | Cancelled

  datatype DispatchState = Pending | Dispatching | Dispatched | Withdrawn   // Withdrawn is "cancelled"

  datatype TestRun = TestRun(
    status: RunStatus, dispatch: DispatchState, cancelRequested: bool, error: string,
    createdAt: int, startedAt: Option<int>, finishedAt: Option<int>,
    evaluations: nat,   // rows of the evaluations table
    report: bool)       // reports.run_id is unique: there is one report or none

  const MAX_ATTEMPTS: nat := 3
  const DIMENSIONS: nat := 7

  function NewRun(now: int): TestRun { TestRun(Queued, Pending, false, "", now, None, None, 0, false) }

  function RunKey(id: string): string { "run:" + id }

  predicate Active(r: TestRun) {
    r.dispatch.Dispatched? && (r.status.Queued? || r.status.Running? || r.status.Evaluating?)
  }

  predicate Waiting(r: TestRun) { r.status.Queued? && r.dispatch.Pending? }

  predicate Stuck(r: TestRun, now: int) { r.status.Queued? && r.dispatch.Dispatching? && r.createdAt < now - 120 }

  function Unstuck(r: TestRun, now: int): TestRun { if Stuck(r, now) then r.(dispatch := Pending) else r }

  function Marked(r: TestRun): TestRun { r.(dispatch := Dispatched) }

  predicate Over(r: TestRun) { r.status.Completed? || r.status.Failed? || r.status.Cancelled? }

  function CancelledRun(r: TestRun, now: int): TestRun {
    r.(cancelRequested := true, status := Cancelled, error := "cancelled by operator",
       finishedAt := Some(now), dispatch := Withdrawn)
  }

  predicate Startable(r: TestRun) { r.status.Queued? || r.status.Running? }

  function Started(r: TestRun, approved: bool, now: int): TestRun {
    if !Startable(r) then r
    else if !approved then r.(status := Failed, error := "scenario version is not approved")
    else r.(status := Running, startedAt := Some(now))
  }

  /** The check an executor makes before it hands the run to the judge. */
  predicate PassesFinalCheck(r: TestRun) { !r.cancelRequested && !r.status.Cancelled? }

  function Handed(r: TestRun, error: string): TestRun { r.(status := Evaluating, error := error) }

  /** The judge's closing transaction: unconditional, save that a second report cannot be stored. */
  function Closed(r: TestRun, now: int): TestRun {
    r.(status := Completed, finishedAt := Some(now), evaluations := r.evaluations + DIMENSIONS, report := true)
  }

  /** What every stored run satisfies: a run that can still be started has neither a report nor a
      cancellation, one that is being evaluated has no cancellation, a completed run has its report,
      and evaluations come with the report only. */
  predicate RowOk(r: TestRun) {
    && (Startable(r) ==> !r.report && !r.cancelRequested)
    && (r.status.Evaluating? ==> !r.cancelRequested)
    && (r.status.Completed? ==> r.report)
    && r.evaluations == (if r.report then DIMENSIONS else 0)
    && (r.status.Cancelled? ==> r.cancelRequested)
  }

  function ResetStuck(runs: map<string, TestRun>, now: int): (r: map<string, TestRun>)
    ensures r.Keys == runs.Keys
    ensures forall id :: id in runs ==> r[id] == Unstuck(runs[id], now)
  {
    map id | id in runs :: Unstuck(runs[id], now)
  }

  function ActiveIds(runs: map<string, TestRun>): set<string> {
    set id | id in runs && Active(runs[id])
  }

  function WaitingIds(runs: map<string, TestRun>): set<string> {
    set id | id in runs && Waiting(runs[id])
  }

  /** The result of `order_by(created_at).limit(slots)` over the waiting runs. */
  ghost predicate OldestWaiting(runs: map<string, TestRun>, slots: nat, ids: seq<string>) {
    && (forall i :: 0 <= i < |ids| ==> ids[i] in WaitingIds(runs))
    && (forall i, j :: 0 <= i < j < |ids| ==> ids[i] != ids[j] && runs[ids[i]].createdAt <= runs[ids[j]].createdAt)
    && |ids| == Min(slots, |WaitingIds(runs)|)
    && (forall i, id :: 0 <= i < |ids| && id in WaitingIds(runs) && id !in ids ==>
          runs[ids[i]].createdAt <= runs[id].createdAt)
  }

  /** `ids` are waiting runs in order of age, `rest` are the other waiting runs, none of them older. */
  ghost predicate OldestSoFar(runs: map<string, TestRun>, ids: seq<string>, rest: set<string>) {
    && (forall id :: id in rest <==> id in WaitingIds(runs) && id !in ids)
    && (forall i :: 0 <= i < |ids| ==> ids[i] in WaitingIds(runs))
    && (forall i, j :: 0 <= i < j < |ids| ==> ids[i] != ids[j] && runs[ids[i]].createdAt <= runs[ids[j]].createdAt)
    && (forall i, id :: 0 <= i < |ids| && id in rest ==> runs[ids[i]].createdAt <= runs[id].createdAt)
    && |ids| + |rest| == |WaitingIds(runs)|
  }

  lemma OldestNext(runs: map<string, TestRun>, ids: seq<string>, rest: set<string>, next: string)
    requires OldestSoFar(runs, ids, rest) && next in rest
    requires forall id :: id in rest ==> runs[next].createdAt <= runs[id].createdAt
    ensures OldestSoFar(runs, ids + [next], rest - {next})
  {
    assert forall id :: id in ids + [next] <==> id in ids || id == next;
  }

  lemma OldestComplete(runs: map<string, TestRun>, ids: seq<string>, rest: set<string>, slots: nat)
    requires OldestSoFar(runs, ids, rest) && |ids| <= slots && (|ids| == slots || rest == {})
    ensures OldestWaiting(runs, slots, ids)
  {
  }

  function MarkAll(runs: map<string, TestRun>, ids: seq<string>): map<string, TestRun> {
    map id | id in runs :: if id in ids then Marked(runs[id]) else runs[id]
  }

  /** The row that a dispatch inserts. */
  predicate IsFreshRow(t: Q.Task, id: string, now: int) {
    && t.kind == "run" && t.runId == Some(id) && t.key == Some("run:" + id)
    && t.status == Q.Queued && t.attempts == 0 && t.maxAttempts == 3 && t.runAfter == now
    && t.lockedAt.None?
  }

  /** Available once the runs stuck for more than two minutes have been freed. */
  predicate Available(r: TestRun, now: int) {
    r.status == Queued && (r.dispatch == Pending || (r.dispatch == Dispatching && now - r.createdAt > 120))
  }

  predicate Counted(r: TestRun) { r.dispatch == Dispatched && r.status in {Queued, Running, Evaluating} }

  /** What one undisturbed call of `dispatch_pending_runs` does to the runs: it dispatches as many of the
      oldest available ones as fit beside the counted ones, frees the others, and touches nothing else. */
  ghost predicate DispatchMeans(before: map<string, TestRun>, after: map<string, TestRun>, now: int, concurrency: int,
                                dispatched: nat) {
    var counted := set id | id in before && Counted(before[id]);
    var available := set id | id in before && Available(before[id], now);
    var chosen := set id | id in after && id in available && after[id].dispatch == Dispatched;
    && after.Keys == before.Keys
    && dispatched == |chosen| == Min(Max(0, concurrency - |counted|), |available|)
    && (forall id :: id in before && id !in available ==> after[id] == before[id])
    && (forall id :: id in available && id !in chosen ==> after[id] == before[id].(dispatch := Pending))
    && (forall id :: id in chosen ==> after[id] == before[id].(dispatch := Dispatched))
    && (forall a, b :: a in chosen && b in available && b !in chosen ==> before[a].createdAt <= before[b].createdAt)
  }

  lemma ResetCounts(before: map<string, TestRun>, now: int)
    ensures ActiveIds(ResetStuck(before, now)) == set id | id in before && Counted(before[id])
    ensures WaitingIds(ResetStuck(before, now)) == set id | id in before && Available(before[id], now)
  {
  }

  lemma DispatchIsRight(before: map<string, TestRun>, after: map<string, TestRun>, now: int, concurrency: int,
                        ids: seq<string>)
    requires var reset := ResetStuck(before, now);
             && OldestWaiting(reset, Max(0, concurrency - |ActiveIds(reset)|), ids) && after == MarkAll(reset, ids)
    ensures DispatchMeans(before, after, now, concurrency, |ids|)
  {
    var reset := ResetStuck(before, now);
    var available := set id | id in before && Available(before[id], now);
    var chosen := set id | id in after && id in available && after[id].dispatch == Dispatched;
    ResetCounts(before, now);
    SelectedAreChosen(before, after, now, ids, available, chosen);
    DistinctSize(ids);
    forall a, b | a in chosen && b in available && b !in chosen ensures before[a].createdAt <= before[b].createdAt {
      var i :| 0 <= i < |ids| && ids[i] == a;
      assert reset[ids[i]].createdAt <= reset[b].createdAt;
    }
  }

  lemma SelectedAreChosen(before: map<string, TestRun>, after: map<string, TestRun>, now: int, ids: seq<string>,
                          available: set<string>, chosen: set<string>)
    requires after == MarkAll(ResetStuck(before, now), ids)
    requires available == set id | id in before && Available(before[id], now)
    requires forall i :: 0 <= i < |ids| ==> ids[i] in available
    requires chosen == set id | id in after && id in available && after[id].dispatch == Dispatched
    ensures chosen == set id | id in ids
    ensures forall id :: id in before && id !in available ==> after[id] == before[id]
    ensures forall id :: id in available && id !in chosen ==> after[id] == before[id].(dispatch := Pending)
    ensures forall id :: id in chosen ==> after[id] == before[id].(dispatch := Dispatched)
  {
    forall id | id in ids ensures id in available {
      var i :| 0 <= i < |ids| && ids[i] == id;
    }
  }

  class RunStore {
    var runs: map<string, TestRun>
    const queue: Q.TaskStore

    ghost predicate Sound()
      reads this
    {
      forall id :: id in runs ==> RowOk(runs[id])
    }

    constructor (queue: Q.TaskStore)
      ensures runs == map[] && this.queue == queue
    {
      runs := map[];
      this.queue := queue;
    }

    /** The compare-and-set by which one dispatcher wins a run. */
    method Win(id: string) returns (won: bool)
      modifies this
      ensures old(Sound()) ==> Sound()
      ensures won <==> id in old(runs) && old(runs)[id].status == Queued && old(runs)[id].dispatch == Pending
      ensures runs == if won then old(runs)[id := old(runs)[id].(dispatch := Dispatching)] else old(runs)
    {
      won := id in runs && Waiting(runs[id]);
      if won { runs := runs[id := runs[id].(dispatch := Dispatching)]; }
    }

    method DispatchRun(id: string, now: int)
      requires Q.UniqueKeys(queue.tasks)
      modifies this, queue
      ensures Q.UniqueKeys(queue.tasks)
      ensures if id in old(runs) && Waiting(old(runs)[id])
              then runs == old(runs)[id := Marked(old(runs)[id])]
                   && Q.HasKey(queue.tasks, "run", RunKey(id))
                   && (if Q.HasKey(old(queue.tasks), "run", RunKey(id)) then queue.tasks == old(queue.tasks)
                       else queue.tasks == old(queue.tasks) +
                              [Q.Fresh("run", Some(id), Some(RunKey(id)), MAX_ATTEMPTS, now)])
              else runs == old(runs) && queue.tasks == old(queue.tasks)
      // A queued and pending run ends up dispatched, with a row that is due at once and has three attempts.
      ensures id in old(runs) && old(runs)[id].status == Queued && old(runs)[id].dispatch == Pending ==>
                && runs == old(runs)[id := old(runs)[id].(dispatch := Dispatched)]
                && Q.HasKey(queue.tasks, "run", "run:" + id)
                && (!Q.HasKey(old(queue.tasks), "run", "run:" + id) ==>
                      && |queue.tasks| == |old(queue.tasks)| + 1
                      && IsFreshRow(queue.tasks[|old(queue.tasks)|], id, now))
      ensures !(id in old(runs) && old(runs)[id].status == Queued && old(runs)[id].dispatch == Pending) ==>
                runs == old(runs) && queue.tasks == old(queue.tasks)
    {
      var won := Win(id);
      if !won { return; }
      assert queue.tasks + [] == queue.tasks;
      var _ := queue.Enqueue("run", Some(id), Some(RunKey(id)), MAX_ATTEMPTS, now, []);
      runs := runs[id := Marked(runs[id])];
    }

    /** The query for the oldest waiting runs. */
    method SelectOldest(slots: nat) returns (ids: seq<string>)
      ensures OldestWaiting(runs, slots, ids)
    {
      ids := [];
      var rest := WaitingIds(runs);
      while |ids| < slots && rest != {}
        invariant |ids| <= slots && OldestSoFar(runs, ids, rest)
        decreases rest
      {
        OldestExists(runs, rest);
        var next :| next in rest && forall id :: id in rest ==> runs[next].createdAt <= runs[id].createdAt;
        OldestNext(runs, ids, rest, next);
        rest := rest - {next};
        ids := ids + [next];
      }
      OldestComplete(runs, ids, rest, slots);
    }

    method DispatchPendingRuns(now: int, concurrency: int) returns (dispatched: nat, ghost ids: seq<string>)
      requires Q.UniqueKeys(queue.tasks)
      modifies this, queue
      ensures Q.UniqueKeys(queue.tasks)
      ensures var reset := ResetStuck(old(runs), now);
              && OldestWaiting(reset, Max(0, concurrency - |ActiveIds(reset)|), ids)
              && dispatched == |ids|
              && runs == MarkAll(reset, ids)
      ensures forall id :: id in ids ==> Q.HasKey(queue.tasks, "run", RunKey(id))
      ensures |ActiveIds(runs)| <= Max(|ActiveIds(old(runs))|, concurrency)
      ensures DispatchMeans(old(runs), runs, now, concurrency, dispatched)
    {
      runs := ResetStuck(runs, now);
      ghost var reset := runs;
      assert ActiveIds(reset) == ActiveIds(old(runs));
      var slots := Max(0, concurrency - |ActiveIds(runs)|);
      var chosen := SelectOldest(slots);
      ids := chosen;
      dispatched := DispatchEach(chosen, now);
      MarkedAreActive(reset, runs, chosen);
      DispatchIsRight(old(runs), runs, now, concurrency, chosen);
    }

    /** The loop of `dispatch_pending_runs` over the selected runs. */
    method DispatchEach(ids: seq<string>, now: int) returns (dispatched: nat)
      requires Q.UniqueKeys(queue.tasks)
      requires forall i :: 0 <= i < |ids| ==> ids[i] in WaitingIds(runs)
      requires forall i, j :: 0 <= i < j < |ids| ==> ids[i] != ids[j]
      modifies this, queue
      ensures Q.UniqueKeys(queue.tasks) && dispatched == |ids|
      ensures runs == MarkAll(old(runs), ids)
      ensures forall i :: 0 <= i < |ids| ==> Q.HasKey(queue.tasks, "run", RunKey(ids[i]))
    {
      ghost var start := runs;
      dispatched := 0;
      assert runs == MarkAll(start, ids[..0]);
      for n := 0 to |ids|
        invariant Q.UniqueKeys(queue.tasks) && dispatched == n
        invariant runs == MarkAll(start, ids[..n])
        invariant forall i :: 0 <= i < n ==> Q.HasKey(queue.tasks, "run", RunKey(ids[i]))
      {
        ghost var before := queue.tasks;
        assert ids[n] !in ids[..n] && runs[ids[n]] == start[ids[n]];
        DispatchRun(ids[n], now);
        MarkOneMore(start, ids, n);
        forall i | 0 <= i < n ensures Q.HasKey(queue.tasks, "run", RunKey(ids[i])) {
          KeyKept(before, queue.tasks, "run", RunKey(ids[i]));
        }
        dispatched := dispatched + 1;
      }
      assert ids[..|ids|] == ids;
    }

    method CancelRun(id: string, now: int) returns (changed: bool)
      modifies this
      ensures old(Sound()) ==> Sound()
      ensures changed <==> id in old(runs) && old(runs)[id].status in {Queued, Running, Evaluating}
      ensures changed ==> && id in runs && runs[id].status == Cancelled && runs[id].cancelRequested
                          && runs[id].dispatch == Withdrawn && runs[id].finishedAt == Some(now)
                          && runs[id].report == old(runs)[id].report
                          && runs[id].evaluations == old(runs)[id].evaluations
      ensures runs == if changed then old(runs)[id := CancelledRun(old(runs)[id], now)] else old(runs)
    {
      changed := id in runs && !Over(runs[id]);
      if changed { runs := runs[id := CancelledRun(runs[id], now)]; }
    }

    /** The first transaction of `execute_run`; `go` tells whether the replay begins. */
    method StartRun(id: string, approved: bool, now: int) returns (go: bool)
      modifies this
      ensures old(Sound()) ==> Sound()
      ensures go <==> id in old(runs) && old(runs)[id].status in {Queued, Running} && approved
      ensures go ==> runs == old(runs)[id := old(runs)[id].(status := Running, startedAt := Some(now))]
      ensures id in old(runs) && old(runs)[id].status in {Queued, Running} && !approved ==>
                id in runs && runs[id].status == Failed && runs[id].error == "scenario version is not approved"
      ensures id in old(runs) && old(runs)[id].status !in {Queued, Running} ==> runs == old(runs)
      ensures runs == if id in old(runs) then old(runs)[id := Started(old(runs)[id], approved, now)] else old(runs)
    {
      if id !in runs || !Startable(runs[id]) { return false; }
      runs := runs[id := Started(runs[id], approved, now)];
      return approved;
    }

    /** The last transaction of `execute_run`; `go` tells whether the judge is called. */
    method HandOver(id: string, error: string) returns (go: bool)
      modifies this
      ensures old(Sound()) ==> Sound()
      ensures go <==> id in old(runs) && !old(runs)[id].cancelRequested && old(runs)[id].status != Cancelled
      ensures go ==> runs == old(runs)[id := old(runs)[id].(status := Evaluating, error := error)]
      ensures runs == if go then old(runs)[id := Handed(old(runs)[id], error)] else old(runs)
    {
      go := id in runs && PassesFinalCheck(runs[id]);
      if go { runs := runs[id := Handed(runs[id], error)]; }
    }

    /** The closing transaction of `evaluate_run`.  A second report violates the unique
        constraint, and the whole transaction is rolled back. */
    method CloseRun(id: string, now: int) returns (r: Result<()>)
      modifies this
      ensures old(Sound()) ==> Sound()
      ensures r.Ok? <==> id in old(runs) && !old(runs)[id].report
      ensures r.Ok? ==> && id in runs && runs[id].status == Completed && runs[id].report
                        && runs[id].finishedAt == Some(now) && runs[id].evaluations == old(runs)[id].evaluations + 7
      ensures runs == if r.Ok? then old(runs)[id := Closed(old(runs)[id], now)] else old(runs)
    {
      if id !in runs { return Raise("AttributeError"); }
      if runs[id].report { return Raise("IntegrityError"); }
      runs := runs[id := Closed(runs[id], now)];
      return Ok(());
    }
  }

  lemma {:induction false} OldestExists(runs: map<string, TestRun>, ids: set<string>)
    requires ids != {} && ids <= runs.Keys
    ensures exists m :: m in ids && forall id :: id in ids ==> runs[m].createdAt <= runs[id].createdAt
    decreases |ids|
  {
    var x :| x in ids;
    var rest := ids - {x};
    if rest == {} {
      assert ids == {x};
    } else {
      OldestExists(runs, rest);
      var m :| m in rest && forall id :: id in rest ==> runs[m].createdAt <= runs[id].createdAt;
      var best := if runs[x].createdAt <= runs[m].createdAt then x else m;
      assert forall id :: id in ids ==> id == x || id in rest;
      assert best in ids && forall id :: id in ids ==> runs[best].createdAt <= runs[id].createdAt;
    }
  }

  lemma KeyKept(a: seq<Q.Task>, b: seq<Q.Task>, kind: string, key: string)
    requires a <= b && Q.HasKey(a, kind, key)
    ensures Q.HasKey(b, kind, key)
  {
    var i :| 0 <= i < |a| && a[i].kind == kind && a[i].key == Some(key);
    assert b[i] == a[i];
  }

  lemma MarkOneMore(runs: map<string, TestRun>, ids: seq<string>, n: nat)
    requires n < |ids| && ids[n] in runs
    ensures MarkAll(runs, ids[..n + 1]) == MarkAll(runs, ids[..n])[ids[n] := Marked(runs[ids[n]])]
  {
    assert ids[..n + 1] == ids[..n] + [ids[n]];
  }

  lemma MarkedAreActive(before: map<string, TestRun>, after: map<string, TestRun>, ids: seq<string>)
    requires forall i :: 0 <= i < |ids| ==> ids[i] in WaitingIds(before)
    requires forall i, j :: 0 <= i < j < |ids| ==> ids[i] != ids[j]
    requires after == MarkAll(before, ids)
    ensures |ActiveIds(after)| == |ActiveIds(before)| + |ids|
  {
    var chosen := set id | id in ids;
    assert ActiveIds(after) == ActiveIds(before) + chosen;
    assert ActiveIds(before) !! chosen;
    DistinctSize(ids);
  }
}
