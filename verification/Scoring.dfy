/** Scoring of a replay (judge.py, `evaluate_run` and its helpers).  The judges' scores and the
    challenger's are oracles; floats are reals. */
module Scoring {
  import opened Prelude
  import opened Text
  import Replay

  /** The part of a RunStep row that the scores read. */
  datatype Row = Row(
    index: nat, hint: nat, success: bool, created: int, latency: Option<real>,
    status: int, streaming: bool, completed: bool, interrupted: bool)

  // ---- Folding the step log -----------------------------------------------------------------

  predicate Le(a: Row, b: Row) { a.index < b.index || (a.index == b.index && a.created <= b.created) }

  ghost predicate InOrder(rows: seq<Row>) { forall i, j :: 0 <= i < j < |rows| ==> Le(rows[i], rows[j]) }

  /** `order_by(step_index, created_at)`: rows that tie may come in either order. */
  ghost predicate IsQueryResult(log: seq<Row>, rows: seq<Row>) {
    multiset(log) == multiset(rows) && InOrder(rows)
  }

  /** `latest_by_index`. */
  function Latest(rows: seq<Row>): map<nat, Row> {
    if rows == [] then map[]
    else var last := rows[|rows| - 1]; Latest(rows[..|rows| - 1])[last.index := last]
  }

  method FoldSteps(rows: seq<Row>) returns (final: seq<Row>)
    ensures forall i, j :: 0 <= i < j < |final| ==> final[i].index != final[j].index
    ensures forall r: Row :: r in final <==> r.index in Latest(rows) && Latest(rows)[r.index] == r
  {
    var latest: map<nat, Row> := map[];
    var keys: seq<nat> := [];
    for n := 0 to |rows|
      invariant latest == Latest(rows[..n])
      invariant forall k :: k in keys <==> k in latest
      invariant forall i, j :: 0 <= i < j < |keys| ==> keys[i] != keys[j]
      invariant forall k :: k in latest ==> latest[k].index == k
    {
      assert rows[..n + 1][..n] == rows[..n];
      if rows[n].index !in latest { keys := keys + [rows[n].index]; }
      latest := latest[rows[n].index := rows[n]];
    }
    assert rows[..|rows|] == rows;
    final := seq(|keys|, i requires 0 <= i < |keys| && keys[i] in latest => latest[keys[i]]);
    forall r: Row | r.index in latest && latest[r.index] == r ensures r in final {
      var i :| 0 <= i < |keys| && keys[i] == r.index;
      assert final[i] == r;
    }
  }

  lemma {:induction false} LatestIsLast(rows: seq<Row>, k: nat)
    ensures k in Latest(rows) <==> exists p :: 0 <= p < |rows| && rows[p].index == k
    ensures k in Latest(rows) ==> exists p :: 0 <= p < |rows| && rows[p] == Latest(rows)[k] && rows[p].index == k
                                    && forall q :: p < q < |rows| ==> rows[q].index != k
    decreases |rows|
  {
    if rows != [] {
      var n := |rows| - 1;
      var init := rows[..n];
      LatestIsLast(init, k);
      if rows[n].index == k {
        assert rows[n] == Latest(rows)[k];
      } else if k in Latest(init) {
        var p :| 0 <= p < n && init[p] == Latest(init)[k] && init[p].index == k
                 && forall q :: p < q < n ==> init[q].index != k;
        assert rows[p] == Latest(rows)[k] && forall q :: p < q < |rows| ==> rows[q].index != k by {
          forall q | p < q < |rows| ensures rows[q].index != k { if q < n { assert init[q].index != k; } }
        }
      } else {
        assert forall p :: 0 <= p < |rows| ==> rows[p].index != k by {
          forall p | 0 <= p < |rows| ensures rows[p].index != k { if p < n { assert init[p].index != k; } }
        }
      }
    }
  }

  // ---- Scores ------------------------------------------------------------------------------

  function Succeeded(final: seq<Row>): nat {
    if final == [] then 0 else (if final[0].success then 1 else 0) + Succeeded(final[1..])
  }

  function Outcome(final: seq<Row>, stages: nat): real {
    if stages == 0 then 0.0 else Succeeded(final) as real / stages as real
  }

  function Clamp(x: real): real { if x < 0.0 then 0.0 else if x > 1.0 then 1.0 else x }

  function SumHints(final: seq<Row>): nat { if final == [] then 0 else final[0].hint + SumHints(final[1..]) }

  function MeanHint(final: seq<Row>): real {
    if final == [] then 0.0 else SumHints(final) as real / |final| as real
  }

  function Trajectory(final: seq<Row>, stages: nat): real { Clamp(Outcome(final, stages) - MeanHint(final) * 0.08) }

  function Latencies(final: seq<Row>): seq<real> {
    if final == [] then []
    else (if final[0].latency.Some? then [final[0].latency.value] else []) + Latencies(final[1..])
  }

  function Sum(xs: seq<real>): real { if xs == [] then 0.0 else xs[0] + Sum(xs[1..]) }

  function Performance(final: seq<Row>): real {
    var ls := Latencies(final);
    var avg := if ls == [] then 0.0 else Sum(ls) / |ls| as real;
    if avg <= 3000.0 then 1.0 else if avg <= 10000.0 then 0.8 else if avg <= 30000.0 then 0.5 else 0.2
  }

  /** `allowed[i]`: stage i declares `streamInterrupted` in its completion contract. */
  predicate StreamFailed(final: seq<Row>, allowed: seq<bool>) {
    exists i :: 0 <= i < |final| && final[i].streaming && !final[i].completed
                && !(final[i].index < |allowed| && allowed[final[i].index] && final[i].interrupted)
  }

  predicate ServerError(final: seq<Row>) { exists i :: 0 <= i < |final| && final[i].status >= 500 }

  predicate HardFail(final: seq<Row>, allowed: seq<bool>, runError: string) {
    runError != "" || ServerError(final) || StreamFailed(final, allowed) || Succeeded(final) < |allowed|
  }

  datatype Judged = Judged(relevance: real, faithfulness: real, completeness: real, feedback: real)

  predicate Unit(x: real) { 0.0 <= x <= 1.0 }

  /** The counts with which the fact checker replies; NoCounts when it gives none. */
  datatype Counts = NoCounts | Counts(supported: int, total: int)

  /** The supported ratio of `judge_hallucination`, or 0.5 without one.  The supported count is cut at
      the total from above, but not at zero from below. */
  function Faithfulness(c: Counts): real {
    if c.NoCounts? || c.total <= 0 then 0.5 else RoundTo(Min(c.supported, c.total) as real / c.total as real, 1000)
  }

  /** What the judges reply; defaults and failures are particular values. */
  datatype Replies = Replies(relevance: real, counts: Counts, completeness: real, feedback: real)

  function JudgedBy(r: Replies): Judged {
    Judged(Clamp(r.relevance), Faithfulness(r.counts), Clamp(r.completeness), Clamp(r.feedback))
  }

  /** What the judges guarantee: every score but the faithfulness is clamped. */
  predicate JudgedBelowOne(j: Judged) {
    Unit(j.relevance) && j.faithfulness <= 1.0 && Unit(j.completeness) && Unit(j.feedback)
  }

  /** The supported count is negative by no more than rounding hides. */
  predicate SaneCounts(c: Counts) { c.Counts? && c.total > 0 ==> 2000 * c.supported >= -c.total }

  /** The faithfulness never exceeds 1, and is not negative exactly for sane counts. */
  lemma FaithfulnessInRangeIff(c: Counts)
    ensures Faithfulness(c) <= 1.0 && (Faithfulness(c) >= 0.0 <==> SaneCounts(c))
  {
    if c.Counts? && c.total > 0 {
      var m := Min(c.supported, c.total) as real;
      FractionAbove(m, c.total as real, -0.0005);
      AtMostOne(m, c.total as real);
      RoundedSign(m / c.total as real);
    }
  }

  lemma AtMostOne(m: real, n: real)
    requires n > 0.0 && m <= n
    ensures m / n <= 1.0
  {
  }

  lemma RoundedSign(y: real)
    requires y <= 1.0
    ensures RoundTo(y, 1000) <= 1.0 && (RoundTo(y, 1000) >= 0.0 <==> y >= -0.0005)
  {
    RoundHalfEvenMonotone(y * 1000.0, 1000.0);
  }

  function RagScore(j: Judged): real { j.relevance * 0.3 + j.faithfulness * 0.4 + j.completeness * 0.3 }

  function Total(final: seq<Row>, stages: nat, j: Judged): real {
    Outcome(final, stages) * 0.25 + RagScore(j) * 0.45 + j.feedback * 0.15
      + Trajectory(final, stages) * 0.10 + Performance(final) * 0.05
  }

  datatype Verdict = Passed | Warning | Failing | Inconclusive

  function FinalVerdict(score: real, hardFail: bool, challenger: Option<real>): Verdict {
    var verdict := if hardFail || score < 0.60 then Failing else if score < 0.85 then Warning else Passed;
    if challenger.Some? && (challenger.value - score > 0.15 || score - challenger.value > 0.15) then Inconclusive
    else verdict
  }

  /** `_dimension` on one score. */
  function DimensionVerdict(score: Option<real>, hardFail: bool): Verdict {
    if score.None? then Inconclusive
    else if hardFail || score.value < 0.60 then Failing
    else if score.value < 0.85 then Warning
    else Passed
  }

  datatype Callback = Send | Skipped | SkippedRetest

  datatype Cause = TestData | Stability | NoResult | Retrieval | CitationGap | KnowledgeGap | Generation | NoCause

  function CallbackPolicy(cause: Cause, baselineRunId: string): Callback {
    if baselineRunId != "" then SkippedRetest else if cause != NoCause then Send else Skipped
  }

  /** What else the root cause reads: whether the error text names a fixture problem, whether the
      observed user broke off a stream, whether any source was retrieved, and the configured gate. */
  datatype Context = Context(fixtureError: bool, observedInterruption: bool, noSources: bool, gate: real)

  predicate HasFive(n: nat) { n % 10 == 5 || (n >= 10 && HasFive(n / 10)) }

  /** The reason text of the outcome dimension. */
  function Reason(final: seq<Row>, allowed: seq<bool>, runError: string): string {
    "\U{5B8C}\U{6210} " + Decimal(Succeeded(final)) + "/" + Decimal(|allowed|) + " \U{4E2A}\U{9636}\U{6BB5}"
    + (if runError != "" then "\U{FF1B}" + runError else "")
    + (if ServerError(final) then "\U{FF1B}\U{51FA}\U{73B0}\U{975E}\U{9884}\U{671F} 5xx" else "")
    + (if StreamFailed(final, allowed)
       then "\U{FF1B}\U{6D41}\U{5F0F}\U{8FDE}\U{63A5}\U{672A}\U{6B63}\U{5E38}\U{5B8C}\U{6210}" else "")
  }

  lemma {:induction false} FiveInDecimal(n: nat)
    ensures '5' in Decimal(n) <==> HasFive(n)
  {
    if n >= 10 {
      FiveInDecimal(n / 10);
      var last := [('0' as int + n % 10) as char];
      assert Decimal(n) == Decimal(n / 10) + last;
      assert '5' in last <==> n % 10 == 5;
    }
  }

  /** Without a run error the reason shows a 5 exactly in a stage count or for a 5xx answer. */
  lemma FiveInReason(final: seq<Row>, allowed: seq<bool>)
    ensures '5' in Reason(final, allowed, "") <==>
              ServerError(final) || HasFive(Succeeded(final)) || HasFive(|allowed|)
  {
    FiveInDecimal(Succeeded(final));
    FiveInDecimal(|allowed|);
    var server := "\U{FF1B}\U{51FA}\U{73B0}\U{975E}\U{9884}\U{671F} 5xx";
    assert server[7] == '5';
  }

  /** `_root_cause`. */
  function RootCause(final: seq<Row>, allowed: seq<bool>, runError: string, j: Judged, c: Context): Cause {
    if runError != "" && c.fixtureError then TestData
    else if runError != "" || (HardFail(final, allowed, runError) && '5' in Reason(final, allowed, runError)) then
      Stability
    else if c.observedInterruption then Stability
    else if c.noSources then NoResult
    else if j.relevance < 0.6 then Retrieval
    else if j.faithfulness < c.gate then CitationGap
    else if j.completeness < 0.6 then KnowledgeGap
    else if j.feedback < 0.6 then Generation
    else NoCause
  }

  /** The run has an error, got a 5xx answer, or broke off a stream without being told to; or some stage
      did not end in a success. */
  ghost predicate BreaksDown(final: seq<Row>, allowed: seq<bool>, runError: string) {
    || runError != ""
    || (exists r :: r in final && r.status >= 500)
    || (exists r :: r in final && r.streaming && !r.completed
          && (|allowed| <= r.index || !allowed[r.index] || !r.interrupted))
    || (exists i: nat :: i < |allowed| && !EndsInSuccess(final, i))
  }

  ghost predicate EndsInSuccess(final: seq<Row>, i: nat) { exists r :: r in final && r.index == i && r.success }

  lemma HardFailMeans(rows: seq<Row>, final: seq<Row>, allowed: seq<bool>, runError: string)
    requires FinalOf(rows, final, |allowed|)
    ensures HardFail(final, allowed, runError) <==> BreaksDown(final, allowed, runError)
  {
    if r :| r in final && r.status >= 500 {
      var k :| 0 <= k < |final| && final[k] == r;
    }
    if r :| r in final && r.streaming && !r.completed && (|allowed| <= r.index || !allowed[r.index] || !r.interrupted) {
      var k :| 0 <= k < |final| && final[k] == r;
    }
    AllStagesSucceeded(rows, final, |allowed|);
  }

  lemma AllStagesSucceeded(rows: seq<Row>, final: seq<Row>, stages: nat)
    requires FinalOf(rows, final, stages)
    ensures Succeeded(final) < stages <==> exists i: nat :: i < stages && !EndsInSuccess(final, i)
  {
    FewFinalSteps(final, stages);
    SucceededAtMost(final);
    if Succeeded(final) < stages {
      if |final| < stages {
        MissingStage(final, stages);
      } else {
        var k :| 0 <= k < |final| && !final[k].success;
        assert forall r :: r in final && r.index == final[k].index ==> r == final[k];
        assert final[k].index < stages && !EndsInSuccess(final, final[k].index);
      }
    } else {
      forall i: nat | i < stages ensures EndsInSuccess(final, i) {
        assert i in Indices(final);
        var r :| r in final && r.index == i;
        var k :| 0 <= k < |final| && final[k] == r;
        assert final[k].success;
      }
    }
  }

  lemma MissingStage(final: seq<Row>, stages: nat)
    requires |final| < stages && forall i, k :: 0 <= i < k < |final| ==> final[i].index != final[k].index
    ensures exists i: nat :: i < stages && !EndsInSuccess(final, i)
  {
    SeenSize(final);
    if Below(stages) <= Indices(final) { SubsetCardinality(Below(stages), Indices(final)); }
    var i :| i in Below(stages) && i !in Indices(final);
    assert !EndsInSuccess(final, i);
  }

  /** What the verdict says about the score: the challenger is asked unless the run is sound and its
      score reaches 0.9, and overrides everything when its answer is more than 0.15 away. */
  predicate VerdictMeans(v: Verdict, score: real, broken: bool, challenger: Option<real>) {
    && (v == Inconclusive <==> (broken || score < 0.9) && challenger.Some?
                               && (challenger.value > score + 0.15 || challenger.value < score - 0.15))
    && (v != Inconclusive ==>
          && (v == Failing <==> broken || score < 0.60)
          && (v == Passed <==> !broken && score >= 0.85))
  }

  /** What a cause says about the run: each names the first thing that is wrong. */
  ghost predicate CauseMeans(cause: Cause, final: seq<Row>, allowed: seq<bool>, runError: string, replies: Replies,
                             c: Context) {
    var digits := BreaksDown(final, allowed, runError) && '5' in Reason(final, allowed, runError);
    var relevant, grounded := replies.relevance >= 0.6, Faithfulness(replies.counts) >= c.gate;
    var complete, aligned := replies.completeness >= 0.6, replies.feedback >= 0.6;
    var quiet := runError == "" && !digits && !c.observedInterruption;
    && (cause == TestData <==> runError != "" && c.fixtureError)
    && (cause == Stability <==> !quiet && !(runError != "" && c.fixtureError))
    && (cause == NoResult <==> quiet && c.noSources)
    && (cause == Retrieval <==> quiet && !c.noSources && !relevant)
    && (cause == CitationGap <==> quiet && !c.noSources && relevant && !grounded)
    && (cause == KnowledgeGap <==> quiet && !c.noSources && relevant && grounded && !complete)
    && (cause == Generation <==> quiet && !c.noSources && relevant && grounded && complete && !aligned)
    && (cause == NoCause <==> quiet && !c.noSources && relevant && grounded && complete && aligned)
  }

  lemma RootCauseMeans(final: seq<Row>, allowed: seq<bool>, runError: string, replies: Replies, c: Context)
    requires HardFail(final, allowed, runError) <==> BreaksDown(final, allowed, runError)
    ensures CauseMeans(RootCause(final, allowed, runError, JudgedBy(replies), c), final, allowed, runError, replies, c)
  {
  }

  datatype Evaluation = Evaluation(
    score: real, outcome: real, trajectory: real, verdict: Verdict, cause: Cause, callback: Callback)

  /** The challenger model is consulted only for a verdict that is not a clear pass. */
  method EvaluateRun(rows: seq<Row>, allowed: seq<bool>, runError: string, replies: Replies,
                     challengerOracle: Option<real>, c: Context, baselineRunId: string)
    returns (e: Evaluation, final: seq<Row>)
    requires forall i :: 0 <= i < |rows| ==> rows[i].index < |allowed|
    ensures FinalOf(rows, final, |allowed|)
    ensures e.outcome == Outcome(final, |allowed|) && e.trajectory == Trajectory(final, |allowed|)
    ensures e.score == Total(final, |allowed|, JudgedBy(replies))
    ensures ScoresMean(e, final, |allowed|, replies)
    ensures Unit(e.outcome) && Unit(e.trajectory) && e.trajectory <= e.outcome
    ensures e.score <= 1.0 && (SaneCounts(replies.counts) ==> Unit(e.score))
    ensures e.verdict == Passed ==> e.outcome == 1.0 && RagScore(JudgedBy(replies)) >= 2.0 / 3.0 && runError == ""
    ensures e.verdict == Passed ==> e.score >= 0.9 || challengerOracle.None?
                                    || -0.15 <= challengerOracle.value - e.score <= 0.15
    ensures HardFail(final, allowed, runError) <==> BreaksDown(final, allowed, runError)
    ensures VerdictMeans(e.verdict, e.score, BreaksDown(final, allowed, runError), challengerOracle)
    ensures e.verdict != Inconclusive ==> CauseMeans(e.cause, final, allowed, runError, replies, c)
    ensures e.verdict == Inconclusive ==> e.cause == TestData
    ensures e.cause == if e.verdict == Inconclusive then TestData
                       else RootCause(final, allowed, runError, JudgedBy(replies), c)
    ensures baselineRunId != "" ==> e.callback == SkippedRetest
    ensures e.callback == Send <==> baselineRunId == "" && e.cause != NoCause
  {
    final := FoldSteps(rows);
    forall i | 0 <= i < |final| ensures final[i].index < |allowed| {
      assert final[i] in final;
      LatestIsLast(rows, final[i].index);
    }
    var j := JudgedBy(replies);
    FaithfulnessInRangeIff(replies.counts);
    ScoresInRange(final, |allowed|, j);
    var score := Total(final, |allowed|, j);
    var hardFail := HardFail(final, allowed, runError);
    var first := FinalVerdict(score, hardFail, None);
    var challenger := if first != Passed || score < 0.9 then challengerOracle else None;
    var verdict := FinalVerdict(score, hardFail, challenger);
    if verdict == Passed { PassedMeans(final, allowed, runError, j); }
    HardFailMeans(rows, final, allowed, runError);
    if verdict != Inconclusive { RootCauseMeans(final, allowed, runError, replies, c); }
    var cause := if verdict == Inconclusive then TestData else RootCause(final, allowed, runError, j, c);
    e := Evaluation(score, Outcome(final, |allowed|), Trajectory(final, |allowed|), verdict, cause,
                    CallbackPolicy(cause, baselineRunId));
    ScoresAreRight(final, |allowed|, replies, e);
  }

  // ---- What the scores are made of -----------------------------------------------------------------

  /** A reply cut to 0..1. */
  predicate IsCut(x: real, c: real) {
    (x <= 0.0 ==> c == 0.0) && (x >= 1.0 ==> c == 1.0) && (0.0 <= x <= 1.0 ==> c == x)
  }

  /** The total of the measured latencies, and how many there are. */
  ghost function TotalLatency(final: seq<Row>): real {
    if final == [] then 0.0
    else
      var last := final[|final| - 1].latency;
      TotalLatency(final[..|final| - 1]) + if last.Some? then last.value else 0.0
  }

  ghost function Measured(final: seq<Row>): nat {
    if final == [] then 0
    else Measured(final[..|final| - 1]) + if final[|final| - 1].latency.Some? then 1 else 0
  }

  ghost function Successes(final: seq<Row>): nat {
    if final == [] then 0 else Successes(final[..|final| - 1]) + if final[|final| - 1].success then 1 else 0
  }

  lemma {:induction false} LatenciesSum(final: seq<Row>)
    ensures Sum(Latencies(final)) == TotalLatency(final) && |Latencies(final)| == Measured(final)
    decreases |final|
  {
    if final != [] {
      var n := |final| - 1;
      LatenciesSum(final[..n]);
      LatenciesSnoc(final[..n], final[n]);
      assert final == final[..n] + [final[n]];
    }
  }

  lemma {:induction false} LatenciesSnoc(init: seq<Row>, row: Row)
    ensures var more := if row.latency.Some? then [row.latency.value] else [];
            Latencies(init + [row]) == Latencies(init) + more
    ensures Sum(Latencies(init + [row])) == Sum(Latencies(init)) + if row.latency.Some? then row.latency.value else 0.0
  {
    var more := if row.latency.Some? then [row.latency.value] else [];
    if init == [] {
      assert [row][1..] == [] && init + [row] == [row];
      if row.latency.Some? { assert more[1..] == []; }
    } else {
      assert (init + [row])[0] == init[0] && (init + [row])[1..] == init[1..] + [row];
      LatenciesSnoc(init[1..], row);
      var first := if init[0].latency.Some? then [init[0].latency.value] else [];
      assert first + (Latencies(init[1..]) + more) == first + Latencies(init[1..]) + more;
      SumOfConcat(first, Latencies(init[1..]) + more);
      SumOfConcat(first, Latencies(init[1..]));
    }
  }

  lemma {:induction false} SumOfConcat(a: seq<real>, b: seq<real>)
    ensures Sum(a + b) == Sum(a) + Sum(b)
  {
    if a == [] {
      assert a + b == b;
    } else {
      assert (a + b)[1..] == a[1..] + b;
      SumOfConcat(a[1..], b);
    }
  }

  /** The performance by the average latency in milliseconds, without a division. */
  ghost predicate PerformanceMeans(p: real, final: seq<Row>) {
    var total, n := TotalLatency(final), Measured(final) as real;
    && (total <= 3000.0 * n ==> p == 1.0)
    && (3000.0 * n < total <= 10000.0 * n ==> p == 0.8)
    && (10000.0 * n < total <= 30000.0 * n ==> p == 0.5)
    && (30000.0 * n < total ==> p == 0.2)
  }

  lemma PerformanceIsRight(final: seq<Row>)
    ensures PerformanceMeans(Performance(final), final)
  {
    LatenciesSum(final);
    var total, n := Sum(Latencies(final)), |Latencies(final)| as real;
    if Latencies(final) != [] {
      Quotient(total, n, 3000.0);
      Quotient(total, n, 10000.0);
      Quotient(total, n, 30000.0);
    }
  }

  lemma Quotient(x: real, n: real, bound: real)
    requires n > 0.0
    ensures x / n <= bound <==> x <= bound * n
  {
    assert x == (x / n) * n;
  }

  /** The faithfulness: one half without counts, otherwise the supported share to three places. */
  predicate FaithfulnessMeans(f: real, c: Counts) {
    if c.NoCounts? || c.total <= 0 then f == 0.5
    else
      var share := Min(c.supported, c.total) as real / c.total as real;
      -0.0005 <= f - share <= 0.0005
  }

  /** The scores of an evaluation in terms of the rows and the replies. */
  ghost predicate ScoresMean(e: Evaluation, final: seq<Row>, stages: nat, replies: Replies) {
    && (stages == 0 ==> e.outcome == 0.0)
    && e.outcome * stages as real == Successes(final) as real
    && (final == [] ==> e.trajectory == e.outcome)
    && (final != [] ==>
          var hints := SumHints(final) as real / |final| as real;
          e.trajectory == if hints * 0.08 <= e.outcome then e.outcome - hints * 0.08 else 0.0)
    && exists r, f, c, b, p ::
         && IsCut(replies.relevance, r) && FaithfulnessMeans(f, replies.counts) && IsCut(replies.completeness, c)
         && IsCut(replies.feedback, b) && PerformanceMeans(p, final)
         && IsTotal(e.score, e.outcome, r, f, c, b, e.trajectory, p)
  }

  lemma {:induction false} SucceededIsCount(final: seq<Row>)
    ensures Succeeded(final) == Successes(final)
    decreases |final|
  {
    if final != [] {
      var n := |final| - 1;
      SucceededIsCount(final[..n]);
      SucceededSnoc(final[..n], final[n]);
      assert final == final[..n] + [final[n]];
    }
  }

  lemma {:induction false} SucceededSnoc(init: seq<Row>, row: Row)
    ensures Succeeded(init + [row]) == Succeeded(init) + if row.success then 1 else 0
  {
    if init == [] {
      assert init + [row] == [row] && [row][1..] == [];
    } else {
      assert (init + [row])[1..] == init[1..] + [row];
      SucceededSnoc(init[1..], row);
    }
  }

  lemma FaithfulnessIsRight(c: Counts)
    ensures FaithfulnessMeans(Faithfulness(c), c)
  {
    if c.Counts? && c.total > 0 {
      var share := Min(c.supported, c.total) as real / c.total as real;
      RoundHalfEvenNear(share * 1000.0);
    }
  }

  lemma OutcomeIsRight(final: seq<Row>, stages: nat)
    requires StepsBelow(final, stages)
    ensures stages == 0 ==> Outcome(final, stages) == 0.0
    ensures Outcome(final, stages) * stages as real == Successes(final) as real
  {
    SucceededIsCount(final);
    assert final == [] || final[0].index < stages;
    ShareTimesWhole(Succeeded(final), stages, Outcome(final, stages));
  }

  lemma ShareTimesWhole(k: nat, n: nat, share: real)
    requires share == if n == 0 then 0.0 else k as real / n as real
    ensures share * n as real == if n == 0 then 0.0 else k as real
  {
    if n > 0 { Quotients(k as real, n as real); }
  }

  lemma Quotients(x: real, n: real)
    requires n != 0.0
    ensures x / n * n == x
  {
  }

  lemma TrajectoryIsRight(o: real, t: real, final: seq<Row>, stages: nat)
    requires o == Outcome(final, stages) && t == Trajectory(final, stages) && Unit(o)
    ensures final == [] ==> t == o
    ensures final != [] ==> var hints := SumHints(final) as real / |final| as real;
                            t == if hints * 0.08 <= o then o - hints * 0.08 else 0.0
  {
    assert MeanHint(final) >= 0.0;
  }

  /** The total, weight by weight. */
  predicate IsTotal(score: real, o: real, r: real, f: real, c: real, b: real, t: real, p: real) {
    score == 0.25 * o + 0.45 * (0.3 * r + 0.4 * f + 0.3 * c) + 0.15 * b + 0.10 * t + 0.05 * p
  }

  lemma ScoresAreRight(final: seq<Row>, stages: nat, replies: Replies, e: Evaluation)
    requires StepsBelow(final, stages)
    requires e.outcome == Outcome(final, stages) && e.trajectory == Trajectory(final, stages)
    requires e.score == Total(final, stages, JudgedBy(replies)) && Unit(e.outcome)
    ensures ScoresMean(e, final, stages, replies)
  {
    var j := JudgedBy(replies);
    OutcomeIsRight(final, stages);
    TrajectoryIsRight(e.outcome, e.trajectory, final, stages);
    PerformanceIsRight(final);
    RepliesAreCut(replies);
    TotalIsRight(final, stages, j);
  }

  lemma RepliesAreCut(replies: Replies)
    ensures var j := JudgedBy(replies);
            && IsCut(replies.relevance, j.relevance) && IsCut(replies.completeness, j.completeness)
            && IsCut(replies.feedback, j.feedback) && FaithfulnessMeans(j.faithfulness, replies.counts)
  {
    FaithfulnessIsRight(replies.counts);
  }

  lemma TotalIsRight(final: seq<Row>, stages: nat, j: Judged)
    ensures IsTotal(Total(final, stages, j), Outcome(final, stages), j.relevance, j.faithfulness, j.completeness,
                    j.feedback, Trajectory(final, stages), Performance(final))
  {
  }

  /** A dimension passes from 0.85 on and fails below 0.60; without a score it is inconclusive, and a
      hard failure fails it. */
  lemma DimensionMeans(score: Option<real>, hardFail: bool)
    ensures DimensionVerdict(score, hardFail) == Inconclusive <==> score.None?
    ensures score.Some? ==> (DimensionVerdict(score, hardFail) == Failing <==> hardFail || score.value < 0.60)
    ensures score.Some? ==> (DimensionVerdict(score, hardFail) == Passed <==> !hardFail && score.value >= 0.85)
  {
  }

  // ---- Ranges -----------------------------------------------------------------------------

  lemma {:induction false} SucceededAtMost(final: seq<Row>)
    ensures Succeeded(final) <= |final|
    ensures Succeeded(final) == |final| <==> forall i :: 0 <= i < |final| ==> final[i].success
  {
    if final != [] {
      SucceededAtMost(final[1..]);
      assert forall i :: 0 < i < |final| ==> final[i] == final[1..][i - 1];
    }
  }

  lemma FewFinalSteps(final: seq<Row>, stages: nat)
    requires forall i, k :: 0 <= i < k < |final| ==> final[i].index != final[k].index
    requires forall i :: 0 <= i < |final| ==> final[i].index < stages
    ensures |final| <= stages
    ensures |final| == stages ==> forall i: nat :: i < stages ==> i in Indices(final)
  {
    var all := Below(stages);
    SeenSize(final);
    SubsetCardinality(Indices(final), all);
    if Indices(final) != all { ProperSubsetCardinality(Indices(final), all); }
  }

  function Indices(final: seq<Row>): set<nat> { set r | r in final :: r.index }

  lemma {:induction false} SeenSize(final: seq<Row>)
    requires forall i, k :: 0 <= i < k < |final| ==> final[i].index != final[k].index
    ensures |Indices(final)| == |final|
  {
    if final != [] {
      var n := |final| - 1;
      var init := final[..n];
      SeenSize(init);
      assert final == init + [final[n]];
      assert Indices(final) == Indices(init) + {final[n].index};
      assert final[n].index !in Indices(init);
    }
  }

  lemma ScoresInRange(final: seq<Row>, stages: nat, j: Judged)
    requires JudgedBelowOne(j)
    requires forall i, k :: 0 <= i < k < |final| ==> final[i].index != final[k].index
    requires forall i :: 0 <= i < |final| ==> final[i].index < stages
    ensures Unit(Outcome(final, stages)) && Unit(Trajectory(final, stages)) && RagScore(j) <= 1.0
    ensures Trajectory(final, stages) <= Outcome(final, stages)
    ensures Total(final, stages, j) <= 1.0 && Total(final, stages, j) >= 0.18 * j.faithfulness + 0.01
    ensures j.faithfulness >= 0.0 ==> Unit(RagScore(j)) && Unit(Total(final, stages, j))
  {
    FewFinalSteps(final, stages);
    SucceededAtMost(final);
    if stages > 0 { assert Outcome(final, stages) == Ratio(Succeeded(final), stages); }
    TrajectoryBelowOutcome(Outcome(final, stages), final, stages);
    TotalBounds(Outcome(final, stages), Trajectory(final, stages), Performance(final), j);
  }

  lemma TrajectoryBelowOutcome(o: real, final: seq<Row>, stages: nat)
    requires o == Outcome(final, stages) && Unit(o)
    ensures Unit(Trajectory(final, stages)) && Trajectory(final, stages) <= o
  {
    assert MeanHint(final) >= 0.0;
  }

  lemma TotalBounds(o: real, t: real, p: real, j: Judged)
    requires Unit(o) && Unit(t) && 0.2 <= p <= 1.0 && JudgedBelowOne(j)
    ensures var total := o * 0.25 + RagScore(j) * 0.45 + j.feedback * 0.15 + t * 0.10 + p * 0.05;
            0.18 * j.faithfulness + 0.01 <= total <= 1.0
  {
  }

  /** How negative a faithfulness the total can bear: no run whatever gets a negative total exactly
      when it is at least -1/18. */
  lemma TotalNeverNegativeIff(f: real)
    requires f <= 1.0
    ensures (forall final, stages: nat, j :: StepsBelow(final, stages) && JudgedBelowOne(j) && j.faithfulness == f ==>
               Total(final, stages, j) >= 0.0) <==> f >= -1.0 / 18.0
  {
    if f >= -1.0 / 18.0 {
      forall final, stages: nat, j | StepsBelow(final, stages) && JudgedBelowOne(j) && j.faithfulness == f
        ensures Total(final, stages, j) >= 0.0
      {
        ScoresInRange(final, stages, j);
      }
    } else {
      SlowFailure(f);
    }
  }

  predicate StepsBelow(final: seq<Row>, stages: nat) {
    && (forall i, k :: 0 <= i < k < |final| ==> final[i].index != final[k].index)
    && (forall i :: 0 <= i < |final| ==> final[i].index < stages)
  }

  /** A run with one slow failed step scores nothing but the last performance points. */
  lemma SlowFailure(f: real)
    ensures var final, j := [Row(0, 0, false, 0, Some(40000.0), 200, false, true, false)], Judged(0.0, f, 0.0, 0.0);
            StepsBelow(final, 1) && Total(final, 1, j) == 0.18 * f + 0.01
  {
    var row := Row(0, 0, false, 0, Some(40000.0), 200, false, true, false);
    var final := [row];
    assert final[1..] == [] && Succeeded(final) == 0 && SumHints(final) == 0;
    assert Latencies(final) == [40000.0] && [40000.0][1..] == [] && Sum([40000.0]) == 40000.0;
  }

  /** A pass is worth something: every stage succeeded, and the retrieval scores reach two thirds
      on their own weights. */
  lemma PassedMeans(final: seq<Row>, allowed: seq<bool>, runError: string, j: Judged)
    requires JudgedBelowOne(j)
    requires forall i, k :: 0 <= i < k < |final| ==> final[i].index != final[k].index
    requires forall i :: 0 <= i < |final| ==> final[i].index < |allowed|
    requires !HardFail(final, allowed, runError) && Total(final, |allowed|, j) >= 0.85
    ensures Outcome(final, |allowed|) == 1.0 && RagScore(j) >= 2.0 / 3.0
  {
    ScoresInRange(final, |allowed|, j);
    FewFinalSteps(final, |allowed|);
    SucceededAtMost(final);
    if |allowed| > 0 {
      assert Outcome(final, |allowed|) == Ratio(Succeeded(final), |allowed|);
    }
  }

  predicate Passes(score: real, hardFail: bool) { DimensionVerdict(Some(score), hardFail) == Passed }

  /** All seven dimensions pass. */
  predicate DimensionsPass(final: seq<Row>, allowed: seq<bool>, runError: string, j: Judged) {
    && Passes(Outcome(final, |allowed|), HardFail(final, allowed, runError))
    && Passes(j.relevance, false) && Passes(j.faithfulness, false) && Passes(j.completeness, false)
    && Passes(j.feedback, false) && Passes(Trajectory(final, |allowed|), false) && Passes(Performance(final), false)
  }

  /** All seven dimensions pass exactly when there is no hard failure and no score below 0.85. */
  lemma DimensionsPassIff(final: seq<Row>, allowed: seq<bool>, runError: string, j: Judged)
    ensures DimensionsPass(final, allowed, runError, j) <==>
              && !HardFail(final, allowed, runError) && Outcome(final, |allowed|) >= 0.85
              && j.relevance >= 0.85 && j.faithfulness >= 0.85 && j.completeness >= 0.85 && j.feedback >= 0.85
              && Trajectory(final, |allowed|) >= 0.85 && Performance(final) >= 0.85
  {
  }

  /** The weights are exact: they sum to one on both levels. */
  lemma WeightedMeanAbove(o: real, j: Judged, t: real, p: real, bound: real)
    requires o >= bound && t >= bound && p >= bound
    requires j.relevance >= bound && j.faithfulness >= bound && j.completeness >= bound && j.feedback >= bound
    ensures o * 0.25 + RagScore(j) * 0.45 + j.feedback * 0.15 + t * 0.10 + p * 0.05 >= bound
  {
    assert RagScore(j) >= bound;
  }

  /** A run whose seven dimensions all pass, passes. */
  lemma PassingDimensionsPass(final: seq<Row>, allowed: seq<bool>, runError: string, j: Judged)
    requires DimensionsPass(final, allowed, runError, j)
    ensures FinalVerdict(Total(final, |allowed|, j), HardFail(final, allowed, runError), None) == Passed
  {
    WeightedMeanAbove(Outcome(final, |allowed|), j, Trajectory(final, |allowed|), Performance(final), 0.85);
  }

  /** An incomplete run that met no error, no 5xx and no user interruption is put down to stability
      exactly when a stage count happens to contain the digit 5. */
  lemma StabilityByDigitIff(final: seq<Row>, allowed: seq<bool>, j: Judged, c: Context)
    requires HardFail(final, allowed, "") && !ServerError(final) && !c.observedInterruption
    ensures RootCause(final, allowed, "", j, c) == Stability <==> HasFive(Succeeded(final)) || HasFive(|allowed|)
  {
    FiveInReason(final, allowed);
  }

  /** Of two runs that got nothing done and found no source, the one with five stages is put down to
      stability and the one with four is not. */
  lemma FiveStagesAreBlamed(j: Judged, c: Context)
    requires !c.observedInterruption && c.noSources
    ensures RootCause([], [false, false, false, false, false], "", j, c) == Stability
    ensures RootCause([], [false, false, false, false], "", j, c) == NoResult
  {
    StabilityByDigitIff([], [false, false, false, false, false], j, c);
    StabilityByDigitIff([], [false, false, false, false], j, c);
  }

  // ---- The outcome of one error-free execution ----------------------------------------------------

  /** The rows of one replay, in the order in which it stored them. */
  ghost predicate RowsOf(log: seq<Row>, steps: seq<Replay.Step>) {
    |log| == |steps| && forall k :: 0 <= k < |log| ==>
      log[k].index == steps[k].stage && log[k].hint == steps[k].hint && log[k].success == steps[k].success
  }

  /** A failure and a success of the same stage. */
  predicate Rivals(failure: Row, success: Row) {
    failure.index == success.index && !failure.success && success.success
  }

  /** Each success carries a later timestamp than the failures of its stage. */
  ghost predicate ClockSeparates(log: seq<Row>) {
    forall a, b :: 0 <= a < |log| && 0 <= b < |log| && Rivals(log[a], log[b]) ==> log[a].created < log[b].created
  }

  /** Every final step the judge may fold from the log is a success. */
  ghost predicate AllFinalSucceed(rows: seq<Row>, stages: nat) {
    forall i :: 0 <= i < stages ==> i in Latest(rows) && Latest(rows)[i].success
  }

  /** `final` holds the latest step of every stage that has one, once. */
  ghost predicate FinalOf(rows: seq<Row>, final: seq<Row>, stages: nat) {
    && (forall r: Row :: r in final <==> r.index in Latest(rows) && Latest(rows)[r.index] == r)
    && (forall i, k :: 0 <= i < k < |final| ==> final[i].index != final[k].index)
    && (forall i :: 0 <= i < |final| ==> final[i].index < stages)
  }

  lemma EveryStageIsFinal(rows: seq<Row>, final: seq<Row>, stages: nat)
    requires FinalOf(rows, final, stages) && AllFinalSucceed(rows, stages)
    ensures |final| >= stages && forall i :: 0 <= i < |final| ==> final[i].success
  {
    var all := Below(stages);
    forall i | i in all ensures i in Indices(final) {
      LatestIsLast(rows, i);
      assert Latest(rows)[i] in final;
    }
    SeenSize(final);
    SubsetCardinality(all, Indices(final));
    forall i | 0 <= i < |final| ensures final[i].success { assert final[i] in final; }
  }

  lemma FullFinalSucceeds(rows: seq<Row>, final: seq<Row>, stages: nat)
    requires FinalOf(rows, final, stages) && (forall i: nat :: i < stages ==> i in Indices(final))
    requires forall i :: 0 <= i < |final| ==> final[i].success
    ensures AllFinalSucceed(rows, stages)
  {
    forall i | 0 <= i < stages ensures i in Latest(rows) && Latest(rows)[i].success {
      assert i in Indices(final);
      var r :| r in final && r.index == i;
      var p :| 0 <= p < |final| && final[p] == r;
      assert final[p].success;
    }
  }

  /** What the outcome score says about the folded steps. */
  lemma OutcomeIsOneIff(rows: seq<Row>, final: seq<Row>, stages: nat)
    requires stages > 0 && FinalOf(rows, final, stages)
    ensures Outcome(final, stages) == 1.0 <==> AllFinalSucceed(rows, stages)
  {
    FewFinalSteps(final, stages);
    SucceededAtMost(final);
    assert Outcome(final, stages) == Ratio(Succeeded(final), stages);
    if AllFinalSucceed(rows, stages) { EveryStageIsFinal(rows, final, stages); }
    if Outcome(final, stages) == 1.0 { FullFinalSucceeds(rows, final, stages); }
  }

  /** In one execution the success of a stage is stored after all of its failures. */
  lemma SuccessIsLast(stages: Replay.StageList, env: Replay.Env, steps: seq<Replay.Step>, lo: nat, hi: nat)
    requires Replay.Progressive(stages, env, steps) && lo < hi < |steps| && steps[lo].stage == steps[hi].stage
    ensures !steps[lo].success
  {
    var before := steps[..hi];
    Replay.PrefixProgressive(stages, env, steps, hi);
    Replay.PassedStagesSucceeded(stages, env, before);
    assert Replay.Behind(before[lo], Replay.Position(before)) && Replay.Next(stages, env, steps, hi);
  }

  /** Strictly increasing timestamps separate successes from failures. */
  lemma IncreasingClockSeparates(stages: Replay.StageList, env: Replay.Env, steps: seq<Replay.Step>, log: seq<Row>)
    requires Replay.Progressive(stages, env, steps) && RowsOf(log, steps)
    requires forall a, b :: 0 <= a < b < |log| ==> log[a].created < log[b].created
    ensures ClockSeparates(log)
  {
    forall a, b | 0 <= a < |log| && 0 <= b < |log| && Rivals(log[a], log[b])
      ensures log[a].created < log[b].created
    {
      if b < a { SuccessIsLast(stages, env, steps, b, a); }
    }
  }

  /** Some success of the stage is created strictly later than all of its failures. */
  ghost predicate EndsWell(log: seq<Row>, i: nat) {
    exists k :: 0 <= k < |log| && log[k].index == i && log[k].success && OutlivesFailures(log, log[k])
  }

  ghost predicate OutlivesFailures(log: seq<Row>, success: Row) {
    forall a :: 0 <= a < |log| && Rivals(log[a], success) ==> log[a].created < success.created
  }

  lemma EndsWellSucceeds(log: seq<Row>, rows: seq<Row>, i: nat)
    requires IsQueryResult(log, rows) && EndsWell(log, i)
    ensures i in Latest(rows) && Latest(rows)[i].success
  {
    var k :| 0 <= k < |log| && log[k].index == i && log[k].success && OutlivesFailures(log, log[k]);
    InSeqMultiset(log[k], log, rows);
    var s :| 0 <= s < |rows| && rows[s] == log[k];
    LatestIsLast(rows, i);
    var p :| 0 <= p < |rows| && rows[p] == Latest(rows)[i] && rows[p].index == i
             && forall q :: p < q < |rows| ==> rows[q].index != i;
    InSeqMultiset(rows[p], rows, log);
    var a :| 0 <= a < |log| && log[a] == rows[p];
    assert s < p ==> Le(rows[s], rows[p]);
    assert !Rivals(log[a], log[k]);
  }

  // ---- An unlucky order ---------------------------------------------------------------------

  /** The query order with ties broken against the scenario: successes before failures. */
  predicate UnluckyLe(a: Row, b: Row) {
    a.index < b.index || (a.index == b.index &&
      (a.created < b.created || (a.created == b.created && (a.success || !b.success))))
  }

  function InsertRow(r: Row, rows: seq<Row>): (s: seq<Row>)
    ensures multiset(s) == multiset(rows) + multiset{r}
  {
    if rows == [] then [r]
    else if UnluckyLe(r, rows[0]) then assert [r] + rows == [r] + rows; [r] + rows
    else
      assert rows == [rows[0]] + rows[1..];
      [rows[0]] + InsertRow(r, rows[1..])
  }

  function Unlucky(rows: seq<Row>): (s: seq<Row>)
    ensures multiset(s) == multiset(rows)
  {
    if rows == [] then [] else
      assert rows == [rows[0]] + rows[1..];
      InsertRow(rows[0], Unlucky(rows[1..]))
  }

  ghost predicate UnluckySorted(rows: seq<Row>) { forall i, j :: 0 <= i < j < |rows| ==> UnluckyLe(rows[i], rows[j]) }

  lemma {:induction false} InsertSorted(r: Row, rows: seq<Row>)
    requires UnluckySorted(rows)
    ensures UnluckySorted(InsertRow(r, rows))
  {
    if rows != [] && !UnluckyLe(r, rows[0]) {
      InsertSorted(r, rows[1..]);
      var tail := InsertRow(r, rows[1..]);
      forall x | x in tail ensures UnluckyLe(rows[0], x) {
        assert x in multiset(tail);
        assert x == r || x in rows[1..];
      }
    }
  }

  lemma {:induction false} UnluckyIsSorted(rows: seq<Row>)
    ensures UnluckySorted(Unlucky(rows))
  {
    if rows != [] {
      UnluckyIsSorted(rows[1..]);
      InsertSorted(rows[0], Unlucky(rows[1..]));
    }
  }

  lemma UnluckyOrderDecides(log: seq<Row>, rows: seq<Row>, i: nat)
    requires multiset(log) == multiset(rows) && UnluckySorted(rows) && i in Latest(rows) && Latest(rows)[i].success
    ensures EndsWell(log, i)
  {
    LatestIsLast(rows, i);
    var p :| 0 <= p < |rows| && rows[p] == Latest(rows)[i] && rows[p].index == i
             && forall q :: p < q < |rows| ==> rows[q].index != i;
    InSeqMultiset(rows[p], rows, log);
    var k :| 0 <= k < |log| && log[k] == rows[p];
    forall a | 0 <= a < |log| && Rivals(log[a], log[k]) ensures log[a].created < log[k].created {
      InSeqMultiset(log[a], log, rows);
      var f :| 0 <= f < |rows| && rows[f] == log[a];
      assert f < p ==> UnluckyLe(rows[f], rows[p]);
    }
    assert OutlivesFailures(log, log[k]);
  }

  // ---- Which logs always score 1 -----------------------------------------------------------------

  /** Whatever order the query returns tied rows in, every stage ends in a success. */
  ghost predicate AlwaysScoresOne(log: seq<Row>, stages: nat) {
    forall rows :: IsQueryResult(log, rows) ==> AllFinalSucceed(rows, stages)
  }

  /** Any log, of one execution or of several in any interleaving, scores outcome 1 under every
      order of the query exactly when each stage has a success later than all of its failures. */
  lemma AlwaysScoresOneIff(log: seq<Row>, stages: nat)
    ensures AlwaysScoresOne(log, stages) <==> forall i :: 0 <= i < stages ==> EndsWell(log, i)
  {
    if i :| 0 <= i < stages && !EndsWell(log, i) {
      UnluckyIsSorted(log);
      if i in Latest(Unlucky(log)) && Latest(Unlucky(log))[i].success { UnluckyOrderDecides(log, Unlucky(log), i); }
      assert InOrder(Unlucky(log));
      assert !AllFinalSucceed(Unlucky(log), stages);
    } else {
      forall rows, i | IsQueryResult(log, rows) && 0 <= i < stages
        ensures i in Latest(rows) && Latest(rows)[i].success
      {
        EndsWellSucceeds(log, rows, i);
      }
    }
  }

  /** The one success of a stage in an execution. */
  lemma SuccessIsUnique(stages: Replay.StageList, env: Replay.Env, steps: seq<Replay.Step>, log: seq<Row>,
                        a: nat, b: nat)
    requires Replay.Progressive(stages, env, steps) && RowsOf(log, steps) && a < |log| && b < |log|
    requires log[a].index == log[b].index && log[a].success && log[b].success
    ensures a == b
  {
    if a < b { SuccessIsLast(stages, env, steps, a, b); }
    if b < a { SuccessIsLast(stages, env, steps, b, a); }
  }

  /** One error-free execution scores outcome 1 under every order the query may return exactly
      when the clock separates successes from failures.  `created_at` is a server default, so
      rows of the same tick may tie; with strictly increasing timestamps the condition holds
      (IncreasingClockSeparates). */
  lemma SingleExecutionScoresOneIff(stages: Replay.StageList, env: Replay.Env, steps: seq<Replay.Step>, log: seq<Row>)
    requires Replay.Progressive(stages, env, steps) && RowsOf(log, steps)
    requires forall i :: 0 <= i < |stages| ==> Replay.StageSucceeded(steps, i)
    ensures AlwaysScoresOne(log, |stages|) <==> ClockSeparates(log)
  {
    AlwaysScoresOneIff(log, |stages|);
    if ClockSeparates(log) {
      forall i | 0 <= i < |stages| ensures EndsWell(log, i) {
        var k := StoredSuccess(steps, log, i);
        assert OutlivesFailures(log, log[k]);
      }
    } else {
      var a, b :| 0 <= a < |log| && 0 <= b < |log| && Rivals(log[a], log[b]) && log[a].created >= log[b].created;
      var i := log[b].index;
      assert Replay.Next(stages, env, steps, b);
      if EndsWell(log, i) {
        var k :| 0 <= k < |log| && log[k].index == i && log[k].success && OutlivesFailures(log, log[k]);
        SuccessIsUnique(stages, env, steps, log, b, k);
      }
    }
  }

  lemma StoredSuccess(steps: seq<Replay.Step>, log: seq<Row>, i: nat) returns (k: nat)
    requires RowsOf(log, steps) && Replay.StageSucceeded(steps, i)
    ensures k < |log| && log[k].index == i && log[k].success
  {
    k :| 0 <= k < |steps| && steps[k].stage == i && steps[k].success;
  }

  // ---- Several executions of one run ---------------------------------------------------------------

  lemma {:induction false} LatestSuccess(log: seq<Row>, i: nat) returns (m: nat)
    requires exists k :: 0 <= k < |log| && log[k].index == i && log[k].success
    ensures m < |log| && log[m].index == i && log[m].success
    ensures forall k :: 0 <= k < |log| && log[k].index == i && log[k].success ==> log[k].created <= log[m].created
    decreases |log|
  {
    var n := |log| - 1;
    var rest := log[..n];
    if k :| 0 <= k < n && log[k].index == i && log[k].success {
      assert rest[k] == log[k];
      m := LatestSuccess(rest, i);
      assert forall j :: 0 <= j < n ==> log[j] == rest[j];
      if log[n].index == i && log[n].success && log[n].created > log[m].created { m := n; }
    } else {
      m := n;
    }
  }

  /** A success of the same stage that is created later. */
  predicate Redeems(success: Row, failure: Row) { Rivals(failure, success) && failure.created < success.created }

  ghost predicate Redeemed(log: seq<Row>, failure: Row) { exists s :: s in log && Redeems(s, failure) }

  /** The queue may enter a run again, and the judge folds the rows of all executions together.
      With one error-free execution among them the outcome is 1 under every order of the query
      exactly when each failure that the others have stored is redeemed by somebody's later success. */
  lemma SeveralExecutionsScoreOneIff(stages: Replay.StageList, env: Replay.Env, steps: seq<Replay.Step>,
                                     clean: seq<Row>, others: seq<Row>)
    requires Replay.Progressive(stages, env, steps) && RowsOf(clean, steps) && ClockSeparates(clean)
    requires forall i :: 0 <= i < |stages| ==> Replay.StageSucceeded(steps, i)
    ensures (AlwaysScoresOne(others + clean, |stages|)
        <==> forall f :: f in others && !f.success && f.index < |stages| ==> Redeemed(others + clean, f))
  {
    var log := others + clean;
    AlwaysScoresOneIff(log, |stages|);
    if forall f :: f in others && !f.success && f.index < |stages| ==> Redeemed(log, f) {
      forall i | 0 <= i < |stages| ensures EndsWell(log, i) {
        RedeemedEndsWell(stages, env, steps, clean, others, i);
      }
    }
    if forall i :: 0 <= i < |stages| ==> EndsWell(log, i) {
      forall f | f in others && !f.success && f.index < |stages| ensures Redeemed(log, f) {
        assert f in log;
        EndsWellRedeems(log, f);
      }
    }
  }

  lemma EndsWellRedeems(log: seq<Row>, f: Row)
    requires EndsWell(log, f.index) && f in log && !f.success
    ensures Redeemed(log, f)
  {
    var k :| 0 <= k < |log| && log[k].index == f.index && log[k].success && OutlivesFailures(log, log[k]);
    var a :| 0 <= a < |log| && log[a] == f;
    assert Rivals(log[a], log[k]) && log[k] in log && Redeems(log[k], f);
  }

  lemma RedeemedEndsWell(stages: Replay.StageList, env: Replay.Env, steps: seq<Replay.Step>,
                         clean: seq<Row>, others: seq<Row>, i: nat)
    requires RowsOf(clean, steps) && ClockSeparates(clean) && Replay.StageSucceeded(steps, i)
    requires forall f :: f in others && !f.success && f.index == i ==> Redeemed(others + clean, f)
    ensures EndsWell(others + clean, i)
  {
    var log := others + clean;
    var own := StoredSuccess(steps, clean, i);
    assert log[|others| + own] == clean[own];
    var m := LatestSuccess(log, i);
    forall a | 0 <= a < |log| && Rivals(log[a], log[m]) ensures log[a].created < log[m].created {
      if a < |others| {
        assert log[a] in others;
        var s :| s in log && Redeems(s, log[a]);
        var k :| 0 <= k < |log| && log[k] == s;
      } else {
        assert log[a] == clean[a - |others|] && Rivals(clean[a - |others|], clean[own]);
      }
    }
    assert OutlivesFailures(log, log[m]);
  }

  /** In particular, a last execution that is error-free and stores its rows after all the others
      makes up for whatever they did. */
  lemma LastExecutionScoresOne(stages: Replay.StageList, env: Replay.Env, steps: seq<Replay.Step>,
                               last: seq<Row>, earlier: seq<Row>)
    requires Replay.Progressive(stages, env, steps) && RowsOf(last, steps) && ClockSeparates(last)
    requires forall i :: 0 <= i < |stages| ==> Replay.StageSucceeded(steps, i)
    requires forall f, r :: f in earlier && r in last ==> f.created < r.created
    ensures AlwaysScoresOne(earlier + last, |stages|)
  {
    SeveralExecutionsScoreOneIff(stages, env, steps, last, earlier);
    forall f | f in earlier && !f.success && f.index < |stages| ensures Redeemed(earlier + last, f) {
      var k := StoredSuccess(steps, last, f.index);
      assert last[k] in last && Redeems(last[k], f);
    }
  }

  /** From the replay to the score: an error-free run whose rows have increasing timestamps
      scores outcome 1, whatever the query does with the rows of different stages. */
  lemma ErrorFreeRunScoresOne(stages: Replay.StageList, env: Replay.Env, steps: seq<Replay.Step>,
                              log: seq<Row>, rows: seq<Row>, final: seq<Row>)
    requires Replay.Progressive(stages, env, steps) && RowsOf(log, steps)
    requires forall i :: 0 <= i < |stages| ==> Replay.StageSucceeded(steps, i)
    requires forall a, b :: 0 <= a < b < |log| ==> log[a].created < log[b].created
    requires IsQueryResult(log, rows)
    requires forall r: Row :: r in final <==> r.index in Latest(rows) && Latest(rows)[r.index] == r
    requires forall i, k :: 0 <= i < k < |final| ==> final[i].index != final[k].index
    ensures Outcome(final, |stages|) == 1.0
  {
    IncreasingClockSeparates(stages, env, steps, log);
    SingleExecutionScoresOneIff(stages, env, steps, log);
    forall i | 0 <= i < |final| ensures final[i].index < |stages| {
      assert final[i] in final;
      LatestIsLast(rows, final[i].index);
      InSeqMultiset(final[i], rows, log);
      var k :| 0 <= k < |log| && log[k] == final[i];
      assert Replay.Next(stages, env, steps, k);
    }
    OutcomeIsOneIff(rows, final, |stages|);
  }

  // ---- Rows of the same tick ------------------------------------------------------------------

  function OneStage(): Replay.StageList { [Replay.Stage(2, 0)] }

  /** The first attempt fails, the second succeeds, and everything is stored. */
  function SecondTry(): Replay.Env {
    Replay.Env(true, i => false, i => false, (i, h) => false, (i: nat, h: nat) => Replay.Answered(h > 0),
               (i, h) => true, k => Replay.Called)
  }

  function TwoTries(): seq<Replay.Step> { [Replay.Step(0, 0, true, false), Replay.Step(0, 1, true, true)] }

  function SameTick(): seq<Row> {
    [Row(0, 0, false, 7, None, 200, false, true, false), Row(0, 1, true, 7, None, 200, false, true, false)]
  }

  /** An error-free execution whose two rows carry the same timestamp may score less than 1. */
  lemma SameTickCanScoreLess()
    ensures Replay.Progressive(OneStage(), SecondTry(), TwoTries()) && RowsOf(SameTick(), TwoTries())
    ensures !AlwaysScoresOne(SameTick(), 1)
  {
    var stages, env, steps := OneStage(), SecondTry(), TwoTries();
    assert Replay.Next(stages, env, steps, 0) && Replay.Next(stages, env, steps, 1);
    assert Rivals(SameTick()[0], SameTick()[1]);
    assert steps[1].stage == 0 && steps[1].success;
    SingleExecutionScoresOneIff(stages, env, steps, SameTick());
  }

  function Separated(): seq<Row> {
    [Row(0, 0, false, 7, None, 200, false, true, false), Row(0, 1, true, 8, None, 200, false, true, false)]
  }

  /** An overlapping execution that stores one failure after the error-free one has finished makes
      the run score less than 1, though on its own the error-free execution scores 1. */
  lemma LateFailureScoresLess()
    ensures AlwaysScoresOne(Separated(), 1)
    ensures !AlwaysScoresOne([Row(0, 0, false, 9, None, 500, false, true, false)] + Separated(), 1)
  {
    var stages, env, steps := OneStage(), SecondTry(), TwoTries();
    assert Replay.Next(stages, env, steps, 0) && Replay.Next(stages, env, steps, 1);
    assert steps[1].stage == 0 && steps[1].success;
    SingleExecutionScoresOneIff(stages, env, steps, Separated());
    var late := Row(0, 0, false, 9, None, 500, false, true, false);
    SeveralExecutionsScoreOneIff(stages, env, steps, Separated(), [late]);
    assert late in [late];
    assert forall s :: s in [late] + Separated() ==> !Redeems(s, late);
  }
}
