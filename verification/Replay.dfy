/** The progressive replay of a scenario (replay.py, `execute_run` and `_cleanup`): the stages in
    order, within a stage the hint levels 0, 1, 2, ... until one succeeds, all under a budget of
    API calls that the clean-up shares.  The actor, the safety checks, the target, the clock, the
    cancellation flag and the database are oracles of the position at which they are consulted. */
module Replay {
  import opened Prelude

  const MAX_HINT: nat := 3
  const MAX_CLEANUP: nat := 20

  /** `maxAttempts` lies in 1..4 by the schema. */
  datatype Stage = Stage(maxAttempts: nat, delayMs: nat)

  type StageList = s: seq<Stage> | |s| >= 1 && forall i :: 0 <= i < |s| ==> 1 <= s[i].maxAttempts <= 4
    witness [Stage(1, 0)]

  /** What becomes of one attempt. */
  datatype Act =
    | Refused              // the actor or the safety check raises: no call is counted
    | Broken               // the call is counted and raises, or there is no time left for it
    | Answered(ok: bool)   // the call returns; `ok` is the completion check

  datatype CleanupAct = OutOfTime | CleanupRefused | Called

  datatype Env = Env(
    setupOk: bool,                    // login and catalog
    cancelled: nat -> bool,           // the poll before a stage
    delayTimeout: nat -> bool,        // no time left for the stage's delay
    late: (nat, nat) -> bool,         // the run has exceeded its time before an attempt
    act: (nat, nat) -> Act,
    stored: (nat, nat) -> bool,       // the RunStep row commits
    cleanup: nat -> CleanupAct)

  /** One entry of the history. */
  datatype Step = Step(stage: nat, hint: nat, called: bool, success: bool)

  /** Why the stage loop ends; all but the first two leave a non-empty `hard_error`. */
  datatype Stop =
    | AllDone
    | CancelSeen(stage: nat)
    | SetupFailed
    | DelayTimeout(stage: nat)
    | CallLimit(stage: nat, hint: nat)
    | RunTimeout(stage: nat, hint: nat)
    | StepLost(stage: nat, hint: nat)
    | StageFailed(stage: nat)

  function CallLimitOf(maxApiCalls: int, specMaxCalls: int): nat { Max(0, Min(maxApiCalls, specMaxCalls)) }

  function Tries(stage: Stage): nat { if stage.maxAttempts - 1 < MAX_HINT then stage.maxAttempts else MAX_HINT + 1 }

  function Entry(env: Env, stage: nat, hint: nat): Step {
    var act := env.act(stage, hint);
    Step(stage, hint, !act.Refused?, act == Answered(true))
  }

  function CountCalls(history: seq<Step>): nat {
    if history == [] then 0
    else CountCalls(history[..|history| - 1]) + if history[|history| - 1].called then 1 else 0
  }

  // ---- What a history looks like ------------------------------------------------------------------

  /** The position the loop moves to after an entry: the next stage after a success, otherwise
      the next hint level of the same stage. */
  function Following(s: Step): (nat, nat) { if s.success then (s.stage + 1, 0) else (s.stage, s.hint + 1) }

  /** Where the loop stands after the first `k` entries. */
  function PositionAt(history: seq<Step>, k: nat): (nat, nat)
    requires k <= |history|
  {
    if k == 0 then (0, 0) else Following(history[k - 1])
  }

  function Position(history: seq<Step>): (nat, nat) { PositionAt(history, |history|) }

  /** Entry `k` is the attempt the loop had to make next, with the outcome the oracles give. */
  ghost predicate Next(stages: StageList, env: Env, history: seq<Step>, k: nat)
    requires k < |history|
  {
    var s := history[k];
    && (s.stage, s.hint) == PositionAt(history, k)
    && s.stage < |stages| && s.hint < Tries(stages[s.stage])
    && s == Entry(env, s.stage, s.hint) && !env.cancelled(s.stage)
  }

  ghost predicate Progressive(stages: StageList, env: Env, history: seq<Step>) {
    && (forall k :: 0 <= k < |history| ==> Next(stages, env, history, k))
    && (forall k :: 0 <= k < |history| - 1 ==> env.stored(history[k].stage, history[k].hint))
  }

  /** The reason given for stopping is true, and the loop could not have gone on. */
  ghost predicate Justified(stages: StageList, limit: nat, env: Env, history: seq<Step>, stop: Stop) {
    var calls := CountCalls(history);
    match stop
    case AllDone => history != [] && Position(history) == (|stages|, 0)
    case CancelSeen(i) => Position(history) == (i, 0) && i < |stages| && env.cancelled(i)
    case SetupFailed => history == [] && !env.setupOk
    case DelayTimeout(i) =>
      Position(history) == (i, 0) && i < |stages| && !env.cancelled(i) && stages[i].delayMs > 0 && env.delayTimeout(i)
    case CallLimit(i, h) =>
      Position(history) == (i, h) && i < |stages| && h < Tries(stages[i]) && calls >= limit
    case RunTimeout(i, h) =>
      Position(history) == (i, h) && i < |stages| && h < Tries(stages[i]) && calls < limit && env.late(i, h)
    case StepLost(i, h) =>
      history != [] && history[|history| - 1] == Entry(env, i, h) && !env.stored(i, h)
    case StageFailed(i) => i < |stages| && Position(history) == (i, Tries(stages[i]))
  }

  ghost predicate Saved(env: Env, history: seq<Step>) {
    history != [] ==> env.stored(history[|history| - 1].stage, history[|history| - 1].hint)
  }

  /** The RunStep rows: the history, without an entry whose commit failed. */
  function StoredSteps(history: seq<Step>, stop: Stop): seq<Step> {
    if stop.StepLost? && history != [] then history[..|history| - 1] else history
  }

  ghost predicate StageSucceeded(steps: seq<Step>, i: nat) {
    exists k :: 0 <= k < |steps| && steps[k].stage == i && steps[k].success
  }

  // ---- The loops ---------------------------------------------------------------------------

  /** The `try` block of `execute_run`. */
  method RunStages(stages: StageList, limit: nat, env: Env) returns (history: seq<Step>, calls: nat, stop: Stop)
    ensures Progressive(stages, env, history)
    ensures calls == CountCalls(history) <= limit
    ensures Justified(stages, limit, env, history, stop)
    ensures stop.SetupFailed? <==> !env.setupOk
  {
    history, calls := [], 0;
    if !env.setupOk { return history, calls, SetupFailed; }
    for i := 0 to |stages|
      invariant Progressive(stages, env, history) && Saved(env, history)
      invariant calls == CountCalls(history) <= limit
      invariant Position(history) == (i, 0) && (i > 0 ==> history != [])
    {
      if env.cancelled(i) { return history, calls, CancelSeen(i); }
      if stages[i].delayMs > 0 && env.delayTimeout(i) { return history, calls, DelayTimeout(i); }
      var failed;
      history, calls, failed := RunStage(stages, limit, env, i, history, calls);
      if failed.Some? { return history, calls, failed.value; }
    }
    stop := AllDone;
  }

  /** The inner loop, over the hint levels of stage `i`. */
  method RunStage(stages: StageList, limit: nat, env: Env, i: nat, before: seq<Step>, callsBefore: nat)
    returns (history: seq<Step>, calls: nat, stop: Option<Stop>)
    requires i < |stages| && !env.cancelled(i) && Position(before) == (i, 0)
    requires Progressive(stages, env, before) && Saved(env, before)
    requires callsBefore == CountCalls(before) <= limit
    ensures before <= history && Progressive(stages, env, history)
    ensures calls == CountCalls(history) <= limit
    ensures stop.None? ==> Saved(env, history) && history != [] && Position(history) == (i + 1, 0)
    ensures stop.Some? ==> !stop.value.SetupFailed? && Justified(stages, limit, env, history, stop.value)
  {
    history, calls := before, callsBefore;
    for hint := 0 to Tries(stages[i])
      invariant before <= history && Progressive(stages, env, history) && Saved(env, history)
      invariant calls == CountCalls(history) <= limit
      invariant Position(history) == (i, hint)
    {
      if calls >= limit { return history, calls, Some(CallLimit(i, hint)); }
      if env.late(i, hint) { return history, calls, Some(RunTimeout(i, hint)); }
      var act := env.act(i, hint);
      if !act.Refused? { calls := calls + 1; }
      var success := act == Answered(true);
      var entry := Step(i, hint, !act.Refused?, success);
      Append(stages, env, history, entry);
      history := history + [entry];
      if !env.stored(i, hint) { return history, calls, Some(StepLost(i, hint)); }
      if success { return history, calls, None; }
    }
    stop := Some(StageFailed(i));
  }

  lemma Append(stages: StageList, env: Env, history: seq<Step>, entry: Step)
    requires Progressive(stages, env, history) && Saved(env, history)
    requires entry == Entry(env, entry.stage, entry.hint) && (entry.stage, entry.hint) == Position(history)
    requires entry.stage < |stages| && entry.hint < Tries(stages[entry.stage]) && !env.cancelled(entry.stage)
    ensures Progressive(stages, env, history + [entry])
    ensures CountCalls(history + [entry]) == CountCalls(history) + if entry.called then 1 else 0
    ensures Position(history + [entry]) == Following(entry)
  {
    var h := history + [entry];
    assert h[..|h| - 1] == history;
    forall k | 0 <= k < |h| ensures Next(stages, env, h, k) {
      if k < |history| { assert Next(stages, env, history, k); }
    }
  }

  lemma PrefixProgressive(stages: StageList, env: Env, history: seq<Step>, n: nat)
    requires Progressive(stages, env, history) && n <= |history|
    ensures Progressive(stages, env, history[..n])
  {
    forall k | 0 <= k < n ensures Next(stages, env, history[..n], k) { assert Next(stages, env, history, k); }
  }

  method Cleanup(items: nat, maxCalls: int, env: Env) returns (results: nat, calls: nat)
    ensures calls <= results <= Min(items, Min(MAX_CLEANUP, Max(0, maxCalls)))
    ensures forall k :: 0 <= k < results - 1 ==> !env.cleanup(k).OutOfTime?
    ensures results < Min(items, Min(MAX_CLEANUP, Max(0, maxCalls))) ==>
              results > 0 && env.cleanup(results - 1).OutOfTime?
    ensures calls == |set k | 0 <= k < results && env.cleanup(k).Called?|
  {
    var bound := Min(items, Min(MAX_CLEANUP, Max(0, maxCalls)));
    results, calls := 0, 0;
    while results < bound
      invariant calls <= results <= bound
      invariant forall k :: 0 <= k < results ==> !env.cleanup(k).OutOfTime?
      invariant calls == |set k | 0 <= k < results && env.cleanup(k).Called?|
    {
      ghost var before := set k | 0 <= k < results && env.cleanup(k).Called?;
      ghost var after := set k | 0 <= k < results + 1 && env.cleanup(k).Called?;
      assert after == if env.cleanup(results).Called? then before + {results} else before;
      if env.cleanup(results).Called? { calls := calls + 1; }
      results := results + 1;
      if env.cleanup(results - 1).OutOfTime? { return; }
    }
  }

  /** The replay and its `finally` block: the clean-up runs whatever ended the stages, on what
      is left of the same call budget. */
  method ExecuteRun(stages: StageList, cleanupItems: nat, maxApiCalls: int, specMaxCalls: int, env: Env)
    returns (history: seq<Step>, calls: nat, stop: Stop, cleaned: nat)
    // The budget is the smaller of both limits, and the run is stopped for it only when it is used up.
    ensures calls <= Max(0, maxApiCalls) && calls <= Max(0, specMaxCalls)
    ensures stop.CallLimit? ==> |CallsOf(env, history)| >= maxApiCalls || |CallsOf(env, history)| >= specMaxCalls
    // Every attempt that is not refused is a call, and so is every clean-up request that is sent.
    ensures calls == |CallsOf(env, history)| + |set k | 0 <= k < cleaned && env.cleanup(k).Called?|
    ensures cleaned <= cleanupItems && cleaned <= 20
    ensures cleaned + |CallsOf(env, history)| <= Max(0, Min(maxApiCalls, specMaxCalls))
    ensures cleaned == Min(Min(cleanupItems, 20), Max(0, Min(maxApiCalls, specMaxCalls)) - |CallsOf(env, history)|)
            || (cleaned > 0 && env.cleanup(cleaned - 1).OutOfTime?)
    ensures forall k :: 0 <= k < |history| ==>
              (history[k].success <==> env.act(history[k].stage, history[k].hint) == Answered(true))
    // A stage is given up only after its last attempt.
    ensures stop.StageFailed? ==> var i := stop.stage;
              && i < |stages| && |history| >= stages[i].maxAttempts
              && forall h :: 0 <= h < stages[i].maxAttempts ==>
                   history[|history| - stages[i].maxAttempts + h] == Step(i, h, !env.act(i, h).Refused?, false)
    ensures Progressive(stages, env, history)
    ensures Justified(stages, CallLimitOf(maxApiCalls, specMaxCalls), env, history, stop)
    ensures stop.AllDone? <==>
              forall i :: 0 <= i < |stages| ==> StageSucceeded(StoredSteps(history, stop), i)
    ensures StoredSteps(history, stop) <= history
  {
    var limit := CallLimitOf(maxApiCalls, specMaxCalls);
    history, calls, stop := RunStages(stages, limit, env);
    DoneIffAllSucceeded(stages, limit, env, history, stop);
    CallsAreCounted(stages, env, history);
    if stop.StageFailed? { FailedStageIsUsedUp(stages, limit, env, history, stop); }
    var cleanupCalls;
    cleaned, cleanupCalls := Cleanup(cleanupItems, limit - calls, env);
    calls := calls + cleanupCalls;
    forall k | 0 <= k < |history|
      ensures history[k].success <==> env.act(history[k].stage, history[k].hint) == Answered(true)
    {
      assert Next(stages, env, history, k);
    }
  }

  /** The attempts that the actor and the safety check let through. */
  ghost function CallsOf(env: Env, history: seq<Step>): set<int> {
    set k | 0 <= k < |history| && !env.act(history[k].stage, history[k].hint).Refused?
  }

  lemma {:induction false} CallsAreCounted(stages: StageList, env: Env, history: seq<Step>)
    requires Progressive(stages, env, history)
    ensures CountCalls(history) == |CallsOf(env, history)|
    decreases |history|
  {
    if history != [] {
      var n := |history| - 1;
      PrefixProgressive(stages, env, history, n);
      CallsAreCounted(stages, env, history[..n]);
      assert Next(stages, env, history, n);
      var called := if history[n].called then {n} else {};
      assert CallsOf(env, history) == CallsOf(env, history[..n]) + called;
    }
  }

  lemma FailedStageIsUsedUp(stages: StageList, limit: nat, env: Env, history: seq<Step>, stop: Stop)
    requires Progressive(stages, env, history) && Justified(stages, limit, env, history, stop) && stop.StageFailed?
    ensures var i := stop.stage;
            && i < |stages| && |history| >= stages[i].maxAttempts
            && forall h :: 0 <= h < stages[i].maxAttempts ==>
                 history[|history| - stages[i].maxAttempts + h] == Step(i, h, !env.act(i, h).Refused?, false)
  {
    var i, n := stop.stage, |history| - 1;
    assert n >= 0 && Next(stages, env, history, n) && history[n].hint == stages[i].maxAttempts - 1;
    HintsAreConsecutive(stages, env, history, n);
    var first := |history| - stages[i].maxAttempts;
    forall h | 0 <= h < stages[i].maxAttempts ensures history[first + h] == Step(i, h, !env.act(i, h).Refused?, false) {
      if h < history[n].hint { assert history[n - history[n].hint + h] == Entry(env, i, h); }
    }
  }

  // ---- Consequences ---------------------------------------------------------------------------

  /** What the entries say about the position of the loop: every stage before the current one
      has succeeded, and the current one has only failed so far, at lower hint levels. */
  ghost predicate Behind(s: Step, position: (nat, nat)) {
    s.stage < position.0 || (s.stage == position.0 && !s.success && s.hint < position.1)
  }

  lemma {:induction false} PassedStagesSucceeded(stages: StageList, env: Env, history: seq<Step>)
    requires Progressive(stages, env, history)
    ensures forall i :: 0 <= i < Position(history).0 ==> StageSucceeded(history, i)
    ensures forall k :: 0 <= k < |history| ==> Behind(history[k], Position(history))
    decreases |history|
  {
    if history != [] {
      var n := |history| - 1;
      var init := history[..n];
      PrefixProgressive(stages, env, history, n);
      PassedStagesSucceeded(stages, env, init);
      assert Next(stages, env, history, n) && PositionAt(history, n) == Position(init);
      forall k | 0 <= k < |history| ensures Behind(history[k], Position(history)) {
        if k < n { assert Behind(init[k], Position(init)); }
      }
      forall i | 0 <= i < Position(history).0 ensures StageSucceeded(history, i) {
        if i < Position(init).0 {
          assert StageSucceeded(init, i);
          var k :| 0 <= k < |init| && init[k].stage == i && init[k].success;
          assert history[k].stage == i && history[k].success;
        } else {
          assert history[n].stage == i && history[n].success;
        }
      }
    }
  }

  /** A run ends without an error exactly when every stage has a stored success: a success whose
      row was lost does not count, and a cancelled run always lacks its current stage. */
  lemma DoneIffAllSucceeded(stages: StageList, limit: nat, env: Env, history: seq<Step>, stop: Stop)
    requires Progressive(stages, env, history) && Justified(stages, limit, env, history, stop)
    ensures stop.AllDone? <==> forall i :: 0 <= i < |stages| ==> StageSucceeded(StoredSteps(history, stop), i)
  {
    var steps := StoredSteps(history, stop);
    PrefixProgressive(stages, env, history, |steps|);
    assert steps == history[..|steps|];
    PassedStagesSucceeded(stages, env, steps);
    if !stop.AllDone? {
      if stop.StepLost? { assert Next(stages, env, history, |history| - 1); }
      var i := Position(steps).0;
      assert i < |stages| && !StageSucceeded(steps, i) by {
        assert forall k :: 0 <= k < |steps| ==> Behind(steps[k], Position(steps));
      }
    }
  }

  /** Within a stage the hint levels are 0, 1, 2, ... without gap or repetition, every attempt
      before the last failed, and a stage is entered only when the one before it has succeeded. */
  lemma {:induction false} HintsAreConsecutive(stages: StageList, env: Env, history: seq<Step>, k: nat)
    requires Progressive(stages, env, history) && k < |history|
    ensures history[k].hint <= k
    ensures forall h :: 0 <= h < history[k].hint ==>
              history[k - history[k].hint + h] == Entry(env, history[k].stage, h)
              && !history[k - history[k].hint + h].success
    ensures history[k].hint == 0 && history[k].stage > 0 ==>
              k > 0 && history[k - 1].stage == history[k].stage - 1 && history[k - 1].success
    decreases k
  {
    assert Next(stages, env, history, k);
    if k > 0 {
      assert Next(stages, env, history, k - 1);
      if !history[k - 1].success { HintsAreConsecutive(stages, env, history, k - 1); }
    }
  }

  lemma SamePositionSameEntry(stages: StageList, env: Env, history: seq<Step>, lo: nat, hi: nat)
    requires Progressive(stages, env, history) && lo < hi < |history|
    ensures (history[lo].stage, history[lo].hint) != (history[hi].stage, history[hi].hint)
  {
    var before := history[..hi];
    PrefixProgressive(stages, env, history, hi);
    PassedStagesSucceeded(stages, env, before);
    assert Behind(before[lo], Position(before)) && Next(stages, env, history, hi);
  }

  /** No stage is tried more often than its `maxAttempts` allows. */
  lemma AttemptsPerStage(stages: StageList, env: Env, history: seq<Step>, i: nat)
    requires Progressive(stages, env, history) && i < |stages|
    ensures |set k | 0 <= k < |history| && history[k].stage == i| <= stages[i].maxAttempts
  {
    var at := set k | 0 <= k < |history| && history[k].stage == i;
    var hintAt := (k: int) => if 0 <= k < |history| then history[k].hint else 0;
    forall a, b | a in at && b in at && hintAt(a) == hintAt(b) ensures a == b {
      if a < b { SamePositionSameEntry(stages, env, history, a, b); }
      if b < a { SamePositionSameEntry(stages, env, history, b, a); }
    }
    forall k | k in at ensures 0 <= hintAt(k) < stages[i].maxAttempts { assert Next(stages, env, history, k); }
    InjectionBound(at, stages[i].maxAttempts, hintAt);
  }

  lemma {:induction false} InjectionBound(s: set<int>, n: nat, f: int -> int)
    requires forall x :: x in s ==> 0 <= f(x) < n
    requires forall x, y :: x in s && y in s && f(x) == f(y) ==> x == y
    ensures |s| <= n
    decreases n
  {
    if n == 0 {
      assert forall x :: x in s ==> 0 <= f(x) < n;
      assert s == {};
    } else if x :| x in s && f(x) == n - 1 {
      InjectionBound(s - {x}, n - 1, f);
    } else {
      InjectionBound(s, n - 1, f);
    }
  }
}
