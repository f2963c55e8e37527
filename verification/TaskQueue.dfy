/** The durable task queue of the evaluation suite (task_queue.py).

    The table is a sequence of rows; a row is never deleted, so its index is its identity.
    `TaskStore` is the table with its transactions as methods.  `Queue` adds the clock and the
    workers that hold a claim, and `QEvent` lists every step that any process can take, so that
    the theorems range over every interleaving of any number of workers: claims, lease expiries,
    crashes, and finishes that come before or after the lease has expired. */
module TaskQueue {
  import opened Prelude

  datatype Status = Queued | Running | Succeeded | Failed

  datatype Task = Task(
    kind: string, runId: Option<string>, key: Option<string>,
    status: Status, attempts: nat, maxAttempts: nat,
    runAfter: int, createdAt: int,
    lockedBy: string, lockedAt: Option<int>,
    lastError: string, finishedAt: Option<int>)

  // ---- One row -----------------------------------------------------------------------------

  function Fresh(kind: string, runId: Option<string>, key: Option<string>, maxAttempts: nat, now: int): Task {
    Task(kind, runId, key, Queued, 0, maxAttempts, now, now, "", None, "", None)
  }

  function Pow2(n: nat): nat { if n == 0 then 1 else 2 * Pow2(n - 1) }

  /** The last 8000 characters, as the source keeps of an error text. */
  function Tail(s: string): string { if |s| <= 8000 then s else s[|s| - 8000..] }

  /** How long a lease lasts, whatever the configured timeout. */
  function Lease(lockTimeout: int): int { Max(60, lockTimeout) }

  predicate Expired(t: Task, now: int, lease: int) {
    t.status.Running? && t.lockedAt.Some? && t.lockedAt.value < now - lease
  }

  /** The two lease-recovery updates of `claim`, on one row. */
  function Recover(t: Task, now: int, lease: int): Task {
    if !Expired(t, now, lease) then t
    else if t.attempts < t.maxAttempts then
      t.(status := Queued, lockedBy := "", lockedAt := None, runAfter := now)
    else
      t.(status := Failed, finishedAt := Some(now), lastError := "worker lease expired")
  }

  function Take(t: Task, now: int, host: string): Task {
    t.(status := Running, attempts := t.attempts + 1, lockedBy := host, lockedAt := Some(now))
  }

  /** `finish`: it checks neither the owner of the lease nor the status of the row. */
  function Finished(t: Task, now: int, error: string): Task {
    if error != "" && t.attempts < t.maxAttempts then
      t.(status := Queued, lastError := Tail(error),
         runAfter := now + Min(60, Pow2(t.attempts)), lockedBy := "", lockedAt := None)
    else
      t.(status := if error != "" then Failed else Succeeded,
         lastError := Tail(error), finishedAt := Some(now))
  }

  // ---- The table ---------------------------------------------------------------------------

  function RecoverAll(tasks: seq<Task>, now: int, lease: int): (r: seq<Task>)
    ensures |r| == |tasks|
    ensures forall i :: 0 <= i < |r| ==> r[i] == Recover(tasks[i], now, lease)
  {
    seq(|tasks|, i requires 0 <= i < |tasks| => Recover(tasks[i], now, lease))
  }

  predicate Due(t: Task, now: int) { t.status.Queued? && t.runAfter <= now }

  /** The order of the candidate query: by `run_after`, then by `created_at`. */
  predicate NotAfter(a: Task, b: Task) {
    a.runAfter < b.runAfter || (a.runAfter == b.runAfter && a.createdAt <= b.createdAt)
  }

  predicate NoneDue(tasks: seq<Task>, now: int) {
    forall i :: 0 <= i < |tasks| ==> !Due(tasks[i], now)
  }

  /** Row `i` may be the candidate; rows that tie are all allowed, as SQL allows. */
  predicate IsNext(tasks: seq<Task>, now: int, i: nat) {
    && i < |tasks| && Due(tasks[i], now)
    && forall j :: 0 <= j < |tasks| && Due(tasks[j], now) ==> NotAfter(tasks[i], tasks[j])
  }

  /** The unique constraint on (task_type, idempotency_key); NULL keys never clash. */
  predicate SameKey(a: Task, b: Task) { a.kind == b.kind && a.key.Some? && a.key == b.key }

  ghost predicate UniqueKeys(tasks: seq<Task>) {
    forall i, j :: 0 <= i < j < |tasks| ==> !SameKey(tasks[i], tasks[j])
  }

  predicate HasKey(tasks: seq<Task>, kind: string, key: string) {
    exists i :: 0 <= i < |tasks| && tasks[i].kind == kind && tasks[i].key == Some(key)
  }

  class TaskStore {
    var tasks: seq<Task>
    const lockTimeout: int

    constructor (lockTimeout: int)
      ensures tasks == [] && this.lockTimeout == lockTimeout
    {
      tasks := [];
      this.lockTimeout := lockTimeout;
    }

    /** `rivals` are the rows other processes commit between the lookup and the insert. */
    method Enqueue(kind: string, runId: Option<string>, key: Option<string>, maxAttempts: nat, now: int,
                   rivals: seq<Task>)
      returns (r: Result<nat>)
      requires UniqueKeys(tasks + rivals)
      modifies this
      ensures UniqueKeys(tasks)
      ensures r.Ok? ==> r.value < |tasks| && tasks[r.value].kind == kind && tasks[r.value].key == key
      // With a usable key exactly one row carries it afterwards, and that row is returned.
      ensures key.Some? && key.value != "" ==> r.Ok? && HasKey(tasks, kind, key.value)
      ensures key.Some? && key.value != "" && HasKey(old(tasks), kind, key.value) ==> tasks == old(tasks)
      ensures key.Some? && key.value != "" && !HasKey(old(tasks), kind, key.value) && HasKey(rivals, kind, key.value)
              ==> tasks == old(tasks) + rivals
      ensures key.Some? && key.value != "" && !HasKey(old(tasks + rivals), kind, key.value)
              ==> tasks == old(tasks) + rivals + [Fresh(kind, runId, key, maxAttempts, now)]
      ensures key.None? ==> r == Ok(|old(tasks)| + |rivals|)
                            && tasks == old(tasks) + rivals + [Fresh(kind, runId, key, maxAttempts, now)]
      // The empty key is never looked up, yet the constraint covers it: the second insert raises.
      ensures key == Some("") ==> (r.Raise? <==> HasKey(old(tasks) + rivals, kind, ""))
      ensures r.Raise? ==> tasks == old(tasks) + rivals
    {
      ghost var before := tasks;
      if key.Some? { KeyInConcat(before, rivals, kind, key.value); }
      UniqueKeysPrefix(before, rivals);
      if key.Some? && key.value != "" && HasKey(tasks, kind, key.value) {
        var i :| 0 <= i < |tasks| && tasks[i].kind == kind && tasks[i].key == Some(key.value);
        return Ok(i);
      }
      tasks := tasks + rivals;
      var row := Fresh(kind, runId, key, maxAttempts, now);
      if key.Some? && HasKey(tasks, kind, key.value) {   // IntegrityError: roll back
        if key.value == "" { return Raise("IntegrityError"); }
        var i :| 0 <= i < |tasks| && tasks[i].kind == kind && tasks[i].key == Some(key.value);
        return Ok(i);
      }
      r := Ok(|tasks|);
      tasks := tasks + [row];
      assert tasks[|tasks| - 1] == row;
    }

    method Claim(now: int, host: string) returns (r: Option<nat>)
      modifies this
      ensures var recovered := RecoverAll(old(tasks), now, Lease(lockTimeout));
              match r
              case None => NoneDue(recovered, now) && tasks == recovered
              case Some(i) => IsNext(recovered, now, i) && tasks == recovered[i := Take(recovered[i], now, host)]
      ensures LeasesKept(old(tasks), tasks, r, now, lockTimeout)
      ensures EarliestTaken(old(tasks), tasks, r, now, lockTimeout, host)
    {
      ghost var before := tasks;
      tasks := RecoverAll(tasks, now, Lease(lockTimeout));
      if i :| 0 <= i < |tasks| && Due(tasks[i], now) {
        NextExists(tasks, now, i);
        var next: nat :| next < |tasks| && IsNext(tasks, now, next);
        tasks := tasks[next := Take(tasks[next], now, host)];
        ClaimMeans(before, tasks, Some(next), now, lockTimeout, host);
        return Some(next);
      }
      ClaimMeans(before, tasks, None, now, lockTimeout, host);
      return None;
    }

    method Finish(id: nat, now: int, error: string)
      modifies this
      ensures tasks == if id < |old(tasks)| then old(tasks)[id := Finished(old(tasks)[id], now, error)]
                       else old(tasks)
      ensures id < |tasks| ==> Settles(old(tasks)[id], tasks[id], now, error)
      ensures old(RowsInv(tasks)) ==> RowsInv(tasks)
    {
      if id >= |tasks| { return; }
      FinishSettles(tasks[id], now, error);
      tasks := tasks[id := Finished(tasks[id], now, error)];
    }
  }

  /** Still at work for all the queue may know: locked within the last minute, or within the timeout. */
  predicate Leased(t: Task, now: int, lockTimeout: int) {
    t.status.Running? && t.lockedAt.Some? && (t.lockedAt.value >= now - 60 || t.lockedAt.value >= now - lockTimeout)
  }

  /** Locked before both bounds. */
  predicate Overrun(t: Task, now: int, lockTimeout: int) {
    t.status.Running? && t.lockedAt.Some? && t.lockedAt.value < now - 60 && t.lockedAt.value < now - lockTimeout
  }

  /** What a claim leaves alone and what it recovers: a row within its lease is neither changed nor
      returned, an overrun one is taken, queued for now, or failed for want of attempts, and any other
      row is changed only by being taken. */
  ghost predicate LeasesKept(before: seq<Task>, after: seq<Task>, r: Option<nat>, now: int, lockTimeout: int) {
    && |after| == |before|
    && (forall i :: 0 <= i < |before| && r != Some(i) ==>
          if !Overrun(before[i], now, lockTimeout) then after[i] == before[i]
          else if before[i].attempts < before[i].maxAttempts then
            && after[i].status.Queued? && after[i].runAfter == now && after[i].lockedAt.None? && after[i].lockedBy == ""
            && after[i].attempts == before[i].attempts
          else
            && after[i].status.Failed? && after[i].finishedAt == Some(now)
            && after[i].lastError == "worker lease expired")
    && (forall i :: 0 <= i < |before| && Leased(before[i], now, lockTimeout) ==> r != Some(i) && after[i] == before[i])
  }

  /** A row that the claim may take, and the time for which it stands in the queue. */
  predicate Claimable(t: Task, now: int, lockTimeout: int) {
    (t.status.Queued? && t.runAfter <= now) || (Overrun(t, now, lockTimeout) && t.attempts < t.maxAttempts)
  }

  function QueuedFor(t: Task, now: int): int { if t.status.Queued? then t.runAfter else now }

  /** What a claim takes: nothing only when nothing can be taken, otherwise a row such that none is
      queued for an earlier time, nor for the same time and created earlier; it is locked for the host
      at this time, with one attempt more. */
  ghost predicate EarliestTaken(before: seq<Task>, after: seq<Task>, r: Option<nat>, now: int, lockTimeout: int,
                                host: string) {
    match r
    case None => forall j :: 0 <= j < |before| ==> !Claimable(before[j], now, lockTimeout)
    case Some(i) =>
      && i < |before| == |after| && Claimable(before[i], now, lockTimeout)
      && (forall j :: 0 <= j < |before| && Claimable(before[j], now, lockTimeout) ==>
            || QueuedFor(before[i], now) < QueuedFor(before[j], now)
            || (QueuedFor(before[i], now) == QueuedFor(before[j], now) && before[i].createdAt <= before[j].createdAt))
      && after[i].status.Running? && after[i].attempts == before[i].attempts + 1
      && after[i].lockedBy == host && after[i].lockedAt == Some(now)
      && after[i].kind == before[i].kind && after[i].runId == before[i].runId && after[i].key == before[i].key
      && after[i].maxAttempts == before[i].maxAttempts && after[i].createdAt == before[i].createdAt
  }

  lemma LeaseMeans(t: Task, now: int, lockTimeout: int)
    ensures Expired(t, now, Lease(lockTimeout)) <==> Overrun(t, now, lockTimeout)
    ensures t.status.Running? && t.lockedAt.Some? ==> Leased(t, now, lockTimeout) != Overrun(t, now, lockTimeout)
    ensures Due(Recover(t, now, Lease(lockTimeout)), now) <==> Claimable(t, now, lockTimeout)
    ensures Claimable(t, now, lockTimeout) ==>
              Recover(t, now, Lease(lockTimeout)).runAfter == QueuedFor(t, now)
  {
  }

  lemma ClaimMeans(before: seq<Task>, after: seq<Task>, r: Option<nat>, now: int, lockTimeout: int, host: string)
    requires var recovered := RecoverAll(before, now, Lease(lockTimeout));
             match r
             case None => NoneDue(recovered, now) && after == recovered
             case Some(i) => IsNext(recovered, now, i) && after == recovered[i := Take(recovered[i], now, host)]
    ensures LeasesKept(before, after, r, now, lockTimeout)
    ensures EarliestTaken(before, after, r, now, lockTimeout, host)
  {
    var recovered := RecoverAll(before, now, Lease(lockTimeout));
    forall j | 0 <= j < |before|
      ensures Expired(before[j], now, Lease(lockTimeout)) <==> Overrun(before[j], now, lockTimeout)
      ensures Due(recovered[j], now) <==> Claimable(before[j], now, lockTimeout)
      ensures Claimable(before[j], now, lockTimeout) ==> recovered[j].runAfter == QueuedFor(before[j], now)
    {
      LeaseMeans(before[j], now, lockTimeout);
    }
  }

  /** The waits after the first attempts, in seconds; later ones are a minute. */
  const BACKOFF: seq<int> := [1, 2, 4, 8, 16, 32]

  function Wait(attempts: nat): int { if attempts < |BACKOFF| then BACKOFF[attempts] else 60 }

  lemma {:induction false} WaitDoubles(n: nat)
    ensures Min(60, Pow2(n)) == Wait(n)
  {
    if n >= 6 {
      Pow2Positive(n - 6);
      assert Pow2(n) == 4 * Pow2(n - 2) && Pow2(n - 2) == 4 * Pow2(n - 4) && Pow2(n - 4) == 4 * Pow2(n - 6);
    } else {
      assert Pow2(0) == 1 && Pow2(1) == 2 && Pow2(2) == 4 && Pow2(3) == 8 && Pow2(4) == 16 && Pow2(5) == 32;
    }
  }

  /** What `finish` decides: success without an error, otherwise a retry within a minute while attempts
      are left, and failure when they are used up. */
  ghost predicate Settles(before: Task, after: Task, now: int, error: string) {
    && after.kind == before.kind && after.runId == before.runId && after.key == before.key
    && after.attempts == before.attempts && after.maxAttempts == before.maxAttempts
    && (after.status.Succeeded? <==> error == "")
    && (after.status.Queued? <==> error != "" && before.attempts < before.maxAttempts)
    && (after.status.Failed? <==> error != "" && before.attempts >= before.maxAttempts)
    && (after.status.Queued? ==>
          after.runAfter == now + Wait(before.attempts) && after.lockedAt.None? && after.lockedBy == "")
    && (if |error| <= 8000 then after.lastError == error
        else |after.lastError| == 8000 && exists cut :: error == cut + after.lastError)
    && (!after.status.Queued? ==> after.finishedAt == Some(now))
  }

  /** Whoever calls `finish`, and whenever, the row is settled and stays sound, and no attempt is won
      back. */
  lemma FinishSettles(t: Task, now: int, error: string)
    ensures Settles(t, Finished(t, now, error), now, error)
    ensures RowInv(t) ==> RowInv(Finished(t, now, error))
    ensures Weight(Finished(t, now, error)) <= Weight(t)
  {
    WaitDoubles(t.attempts);
    if |error| > 8000 { assert error == error[..|error| - 8000] + Tail(error); }
  }

  /** After the lease recovery nothing is expired: an expired row is due at once if it has attempts
      left and has failed if not, and no other row is touched.  Recovering again changes nothing. */
  lemma RecoveryMeans(tasks: seq<Task>, now: int, lease: int)
    ensures var after := RecoverAll(tasks, now, lease);
            && (forall i :: 0 <= i < |tasks| ==> !Expired(after[i], now, lease))
            && (forall i :: 0 <= i < |tasks| && !Expired(tasks[i], now, lease) ==> after[i] == tasks[i])
            && (forall i :: 0 <= i < |tasks| && Expired(tasks[i], now, lease) ==>
                  && after[i].attempts == tasks[i].attempts && after[i].maxAttempts == tasks[i].maxAttempts
                  && if tasks[i].attempts < tasks[i].maxAttempts then Due(after[i], now) else after[i].status.Failed?)
            && RecoverAll(after, now, lease) == after
            && (RowsInv(tasks) ==> RowsInv(after))
  {
    var after := RecoverAll(tasks, now, lease);
    assert forall i :: 0 <= i < |tasks| ==> RecoverAll(after, now, lease)[i] == after[i];
  }

  lemma KeyInConcat(a: seq<Task>, b: seq<Task>, kind: string, key: string)
    ensures HasKey(a + b, kind, key) <==> HasKey(a, kind, key) || HasKey(b, kind, key)
  {
    var c := a + b;
    forall i | 0 <= i < |a| ensures c[i] == a[i] {}
    forall i | 0 <= i < |b| ensures c[|a| + i] == b[i] {}
  }

  lemma UniqueKeysPrefix(a: seq<Task>, b: seq<Task>)
    requires UniqueKeys(a + b)
    ensures UniqueKeys(a)
  {
    forall i, j | 0 <= i < j < |a| ensures !SameKey(a[i], a[j]) {
      assert (a + b)[i] == a[i] && (a + b)[j] == a[j];
    }
  }

  /** A due row always yields a candidate: `claim` returns nothing only when nothing is due. */
  lemma {:induction false} NextExists(tasks: seq<Task>, now: int, i: nat)
    requires i < |tasks| && Due(tasks[i], now)
    ensures exists k: nat :: k < |tasks| && IsNext(tasks, now, k)
    decreases |tasks|
  {
    var n := |tasks| - 1;
    var init := tasks[..n];
    if j :| 0 <= j < n && Due(init[j], now) {
      NextExists(init, now, j);
      var k: nat :| k < n && IsNext(init, now, k);
      if Due(tasks[n], now) && !NotAfter(tasks[k], tasks[n]) {
        assert forall j :: 0 <= j < n && Due(tasks[j], now) ==> Due(init[j], now);
        assert IsNext(tasks, now, n);
      } else {
        assert forall j :: 0 <= j < n && Due(tasks[j], now) ==> Due(init[j], now);
        assert IsNext(tasks, now, k);
      }
    } else {
      assert forall j :: 0 <= j < n ==> init[j] == tasks[j];
      assert IsNext(tasks, now, n);
    }
  }

  // ---- The machine: clock, table and the workers that hold a claim -----------------------------

  type Worker = nat

  datatype Queue = Queue(now: int, lockTimeout: int, tasks: seq<Task>, held: map<Worker, nat>)

  datatype QEvent =
    | Tick(delta: nat)
    | Insert(kind: string, runId: Option<string>, key: Option<string>, maxAttempts: nat)
    | Claim(worker: Worker, host: string, pick: Option<nat>)
    | Finish(holder: Worker, error: string)   // on time or late
    | Crash(dead: Worker)

  function Recovered(q: Queue): seq<Task> { RecoverAll(q.tasks, q.now, Lease(q.lockTimeout)) }

  predicate Enabled(q: Queue, e: QEvent) {
    match e
    case Tick(_) => true
    case Insert(kind, _, key, maxAttempts) =>
      maxAttempts >= 1 && (key.Some? ==> !HasKey(q.tasks, kind, key.value))
    case Claim(w, _, None) => w !in q.held && NoneDue(Recovered(q), q.now)
    case Claim(w, _, Some(i)) => w !in q.held && IsNext(Recovered(q), q.now, i)
    case Finish(w, _) => w in q.held && q.held[w] < |q.tasks|
    case Crash(w) => w in q.held
  }

  function Apply(q: Queue, e: QEvent): Queue
    requires Enabled(q, e)
  {
    match e
    case Tick(d) => q.(now := q.now + d)
    case Insert(kind, runId, key, n) => q.(tasks := q.tasks + [Fresh(kind, runId, key, n, q.now)])
    case Claim(w, host, None) => q.(tasks := Recovered(q))
    case Claim(w, host, Some(i)) =>
      q.(tasks := Recovered(q)[i := Take(Recovered(q)[i], q.now, host)], held := q.held[w := i])
    case Finish(w, error) =>
      var i := q.held[w];
      q.(tasks := q.tasks[i := Finished(q.tasks[i], q.now, error)], held := q.held - {w})
    case Crash(w) => q.(held := q.held - {w})
  }

  predicate IsTrace(q: Queue, es: seq<QEvent>)
    decreases |es|
  {
    es == [] || (Enabled(q, es[0]) && IsTrace(Apply(q, es[0]), es[1..]))
  }

  function After(q: Queue, es: seq<QEvent>): Queue
    requires IsTrace(q, es)
    decreases |es|
  {
    if es == [] then q else After(Apply(q, es[0]), es[1..])
  }

  lemma OneStep(q: Queue, e: QEvent)
    requires Enabled(q, e)
    ensures IsTrace(q, [e]) && After(q, [e]) == Apply(q, e)
  {
    var q' := Apply(q, e);
    assert [e][1..] == [];
    assert IsTrace(q', []) && After(q', []) == q';
  }

  // ---- What every step keeps -----------------------------------------------------------------

  ghost predicate RowInv(t: Task) {
    && t.maxAttempts >= 1 && t.attempts <= t.maxAttempts
    && (t.status.Queued? ==> t.attempts < t.maxAttempts)
    && (t.status.Failed? ==> t.attempts == t.maxAttempts)
    && (t.status.Running? ==> t.attempts >= 1 && t.lockedAt.Some?)
  }

  ghost predicate RowsInv(tasks: seq<Task>) { forall i :: 0 <= i < |tasks| ==> RowInv(tasks[i]) }

  ghost predicate Inv(q: Queue) {
    && RowsInv(q.tasks)
    && (forall w :: w in q.held ==> q.held[w] < |q.tasks|)
    && UniqueKeys(q.tasks)
    && (forall i :: 0 <= i < |q.tasks| ==> q.tasks[i].createdAt <= q.now)
  }

  lemma StepKeepsInv(q: Queue, e: QEvent)
    requires Inv(q) && Enabled(q, e)
    ensures Inv(Apply(q, e))
  {
    RowsKept(q, e);
    RowsStaySound(q, e);
    KeysStayUnique(q, e);
  }

  lemma RowsStaySound(q: Queue, e: QEvent)
    requires Inv(q) && Enabled(q, e)
    ensures RowsInv(Apply(q, e).tasks)
  {
    if e.Finish? { FinishSettles(q.tasks[q.held[e.holder]], q.now, e.error); }
    if e.Claim? { RecoveryMeans(q.tasks, q.now, Lease(q.lockTimeout)); }
  }

  lemma KeysStayUnique(q: Queue, e: QEvent)
    requires Inv(q) && Enabled(q, e)
    ensures UniqueKeys(Apply(q, e).tasks)
  {
    var q' := Apply(q, e);
    RowsKept(q, e);
    if e.Insert? {
      InsertKeepsKeys(q.tasks, q'.tasks[|q.tasks|]);
    } else {
      SameKeysUnique(q.tasks, q'.tasks);
    }
  }

  lemma InsertKeepsKeys(tasks: seq<Task>, row: Task)
    requires UniqueKeys(tasks) && (row.key.Some? ==> !HasKey(tasks, row.kind, row.key.value))
    ensures UniqueKeys(tasks + [row])
  {
    forall i, j | 0 <= i < j < |tasks + [row]| ensures !SameKey((tasks + [row])[i], (tasks + [row])[j]) {
      if j < |tasks| { assert !SameKey(tasks[i], tasks[j]); }
    }
  }

  lemma SameKeysUnique(a: seq<Task>, b: seq<Task>)
    requires UniqueKeys(a) && |a| == |b|
    requires forall i :: 0 <= i < |a| ==> a[i].kind == b[i].kind && a[i].key == b[i].key
    ensures UniqueKeys(b)
  {
    forall i, j | 0 <= i < j < |b| ensures !SameKey(b[i], b[j]) { assert !SameKey(a[i], a[j]); }
  }

  /** A step never rewrites what identifies a row, and adds a row only by inserting it. */
  lemma RowsKept(q: Queue, e: QEvent)
    requires Enabled(q, e)
    ensures var after := Apply(q, e).tasks;
            && |after| == |q.tasks| + (if e.Insert? then 1 else 0)
            && (forall i :: 0 <= i < |q.tasks| ==>
                  after[i].kind == q.tasks[i].kind && after[i].runId == q.tasks[i].runId
                  && after[i].key == q.tasks[i].key && after[i].maxAttempts == q.tasks[i].maxAttempts)
            && (e.Insert? ==> after[|q.tasks|] == Fresh(e.kind, e.runId, e.key, e.maxAttempts, q.now))
  {
  }

  lemma {:induction false} TraceKeepsInv(q: Queue, es: seq<QEvent>)
    requires Inv(q) && IsTrace(q, es)
    ensures Inv(After(q, es))
    decreases |es|
  {
    if es != [] {
      StepKeepsInv(q, es[0]);
      TraceKeepsInv(Apply(q, es[0]), es[1..]);
    }
  }

  // ---- Bounded retries ----------------------------------------------------------------------

  function Claims(es: seq<QEvent>, i: nat): nat {
    if es == [] then 0
    else (if es[0].Claim? && es[0].pick == Some(i) then 1 else 0) + Claims(es[1..], i)
  }

  function Attempts(q: Queue, i: nat): nat { if i < |q.tasks| then q.tasks[i].attempts else 0 }

  /** `attempts` counts the claims of the row, so no row is ever claimed more than
      `max_attempts` times, whatever finishes, crashes and lease expiries happen in between. */
  lemma {:induction false} ClaimsAreBounded(q: Queue, es: seq<QEvent>, i: nat)
    requires Inv(q) && IsTrace(q, es)
    ensures Attempts(After(q, es), i) == Attempts(q, i) + Claims(es, i)
    ensures i < |After(q, es).tasks| ==> Attempts(q, i) + Claims(es, i) <= After(q, es).tasks[i].maxAttempts
    decreases |es|
  {
    TraceKeepsInv(q, es);
    if es != [] {
      StepKeepsInv(q, es[0]);
      assert Attempts(Apply(q, es[0]), i) ==
             Attempts(q, i) + if es[0].Claim? && es[0].pick == Some(i) then 1 else 0;
      ClaimsAreBounded(Apply(q, es[0]), es[1..], i);
    }
  }

  // ---- Termination --------------------------------------------------------------------------

  function Weight(t: Task): int { 3 * (t.maxAttempts - t.attempts) + if t.status.Running? then 1 else 0 }

  function TotalWeight(tasks: seq<Task>): int {
    if tasks == [] then 0 else Weight(tasks[0]) + TotalWeight(tasks[1..])
  }

  /** Three for every claim still allowed, one for every claim held, one for every running row. */
  function Measure(q: Queue): int { TotalWeight(q.tasks) + |q.held| }

  lemma {:induction false} WeightMonotone(a: seq<Task>, b: seq<Task>)
    requires |a| == |b| && forall i :: 0 <= i < |a| ==> Weight(a[i]) >= Weight(b[i])
    ensures TotalWeight(a) >= TotalWeight(b)
  {
    if a != [] { WeightMonotone(a[1..], b[1..]); }
  }

  lemma {:induction false} WeightUpdate(a: seq<Task>, i: nat, t: Task)
    requires i < |a|
    ensures TotalWeight(a[i := t]) == TotalWeight(a) - Weight(a[i]) + Weight(t)
  {
    if i == 0 {
      assert a[i := t][1..] == a[1..];
    } else {
      assert a[i := t][1..] == a[1..][i - 1 := t];
      WeightUpdate(a[1..], i - 1, t);
    }
  }

  lemma {:induction false} WeightNonNegative(a: seq<Task>)
    requires forall i :: 0 <= i < |a| ==> RowInv(a[i])
    ensures TotalWeight(a) >= 0
  {
    if a != [] { WeightNonNegative(a[1..]); }
  }

  lemma {:induction false} WeightDrops(a: seq<Task>, b: seq<Task>, i: nat)
    requires |a| == |b| && i < |a| && Weight(a[i]) > Weight(b[i])
    requires forall k :: 0 <= k < |a| ==> Weight(a[k]) >= Weight(b[k])
    ensures TotalWeight(a) > TotalWeight(b)
  {
    if i == 0 { WeightMonotone(a[1..], b[1..]); } else { WeightDrops(a[1..], b[1..], i - 1); }
  }

  lemma FinishConsumes(q: Queue, w: Worker, error: string)
    requires Inv(q) && Enabled(q, Finish(w, error))
    ensures Measure(Apply(q, Finish(w, error))) < Measure(q)
  {
    var i := q.held[w];
    var t := Finished(q.tasks[i], q.now, error);
    assert Weight(t) <= Weight(q.tasks[i]);
    WeightUpdate(q.tasks, i, t);
    MapRemoveSize(q.held, w);
  }

  lemma RecoveryConsumes(tasks: seq<Task>, now: int, lease: int)
    ensures TotalWeight(RecoverAll(tasks, now, lease)) <= TotalWeight(tasks)
    ensures RecoverAll(tasks, now, lease) != tasks ==> TotalWeight(RecoverAll(tasks, now, lease)) < TotalWeight(tasks)
  {
    var rec := RecoverAll(tasks, now, lease);
    WeightMonotone(tasks, rec);
    if i :| 0 <= i < |rec| && rec[i] != tasks[i] { WeightDrops(tasks, rec, i); }
  }

  lemma ClaimConsumes(q: Queue, w: Worker, host: string, i: nat)
    requires Inv(q) && Enabled(q, Claim(w, host, Some(i)))
    ensures Measure(Apply(q, Claim(w, host, Some(i)))) < Measure(q)
  {
    var rec := Recovered(q);
    RecoveryConsumes(q.tasks, q.now, Lease(q.lockTimeout));
    WeightUpdate(rec, i, Take(rec[i], q.now, host));
    MapAddSize(q.held, w, i);
  }

  /** On a fixed set of rows every step either changes nothing but the clock or makes the
      measure strictly smaller. */
  lemma StepConsumesMeasure(q: Queue, e: QEvent)
    requires Inv(q) && Enabled(q, e) && !e.Insert?
    ensures var q' := Apply(q, e);
            if q'.tasks == q.tasks && q'.held == q.held then Measure(q') == Measure(q)
            else Measure(q') < Measure(q)
  {
    match e
    case Tick(_) =>
    case Crash(w) => MapRemoveSize(q.held, w);
    case Finish(w, error) => FinishConsumes(q, w, error);
    case Claim(w, host, pick) =>
      if pick.Some? {
        ClaimConsumes(q, w, host, pick.value);
      } else {
        RecoveryConsumes(q.tasks, q.now, Lease(q.lockTimeout));
      }
  }

  function Changes(q: Queue, es: seq<QEvent>): nat
    requires IsTrace(q, es)
    decreases |es|
  {
    if es == [] then 0
    else
      var q' := Apply(q, es[0]);
      (if q'.tasks == q.tasks && q'.held == q.held then 0 else 1) + Changes(q', es[1..])
  }

  /** So a run over a fixed set of rows takes at most `Measure` effective steps: it terminates. */
  lemma {:induction false} RunsTerminate(q: Queue, es: seq<QEvent>)
    requires Inv(q) && IsTrace(q, es) && forall k :: 0 <= k < |es| ==> !es[k].Insert?
    ensures Changes(q, es) <= Measure(q)
    decreases |es|
  {
    WeightNonNegative(q.tasks);
    if es != [] {
      StepKeepsInv(q, es[0]);
      StepConsumesMeasure(q, es[0]);
      RunsTerminate(Apply(q, es[0]), es[1..]);
    }
  }

  // ---- No starvation ------------------------------------------------------------------------

  /** The other queued rows that `claim` may prefer to row `i`. */
  ghost function Ahead(q: Queue, i: nat): set<nat>
    requires i < |q.tasks|
  {
    set j: nat | j < |q.tasks| && j != i && q.tasks[j].status.Queued? && NotAfter(q.tasks[j], q.tasks[i])
  }

  /** Row `i` waits, and its time has passed. */
  ghost predicate Overdue(q: Queue, i: nat) {
    i < |q.tasks| && q.tasks[i].status.Queued? && q.tasks[i].runAfter < q.now
  }

  ghost predicate Touches(q: Queue, e: QEvent, i: nat) {
    || (e.Claim? && e.pick == Some(i))
    || (e.Finish? && e.holder in q.held && q.held[e.holder] == i)
  }

  /** Once row `i` is overdue, no step puts another row in front of it, and every claim that
      takes a row either takes `i` or removes one of the rows in front. */
  lemma OverdueStep(q: Queue, e: QEvent, i: nat)
    requires Inv(q) && Enabled(q, e) && Overdue(q, i) && !Touches(q, e, i)
    ensures Overdue(Apply(q, e), i) && Apply(q, e).tasks[i] == q.tasks[i]
    ensures Ahead(Apply(q, e), i) <= Ahead(q, i)
    ensures e.Claim? ==> e.pick.Some? && e.pick.value in Ahead(q, i) && e.pick.value !in Ahead(Apply(q, e), i)
  {
    var q' := Apply(q, e);
    if e.Claim? {
      var rec := Recovered(q);
      assert Due(rec[i], q.now);
      assert NotAfter(rec[e.pick.value], rec[i]);
    }
    if e.Finish? {
      var k := q.held[e.holder];
      assert q'.tasks[k].status.Queued? ==> q'.tasks[k].runAfter > q.tasks[i].runAfter by {
        Pow2Positive(q.tasks[k].attempts);
      }
    }
  }

  lemma {:induction false} Pow2Positive(n: nat)
    ensures Pow2(n) >= 1
  {
    if n > 0 { Pow2Positive(n - 1); }
  }

  ghost predicate Untouched(q: Queue, es: seq<QEvent>, i: nat)
    requires IsTrace(q, es)
    decreases |es|
  {
    es == [] || (!Touches(q, es[0], i) && Untouched(Apply(q, es[0]), es[1..], i))
  }

  function ClaimCalls(es: seq<QEvent>): nat {
    if es == [] then 0 else (if es[0].Claim? then 1 else 0) + ClaimCalls(es[1..])
  }

  /** No starvation: an overdue row is passed over by at most as many calls of `claim` as there
      were rows in front of it when it became overdue.  The next call takes it, unless a late
      finish rewrites the row itself first. */
  lemma {:induction false} NoStarvation(q: Queue, es: seq<QEvent>, i: nat)
    requires Inv(q) && IsTrace(q, es) && Overdue(q, i)
    requires Untouched(q, es, i)
    ensures ClaimCalls(es) <= |Ahead(q, i)|
    decreases |es|
  {
    if es != [] {
      var q' := Apply(q, es[0]);
      StepKeepsInv(q, es[0]);
      OverdueStep(q, es[0], i);
      NoStarvation(q', es[1..], i);
      if es[0].Claim? {
        SubsetCardinality(Ahead(q', i), Ahead(q, i) - {es[0].pick.value});
      } else {
        SubsetCardinality(Ahead(q', i), Ahead(q, i));
      }
    }
  }

  // ---- What late finishes break, and what timely ones keep ---------------------------------------

  ghost predicate Held(q: Queue, i: nat) { exists w :: w in q.held && q.held[w] == i }

  predicate Terminal(s: Status) { s.Succeeded? || s.Failed? }

  /** Along `es` row `i` never changes its status. */
  ghost predicate Frozen(q: Queue, es: seq<QEvent>, i: nat)
    requires IsTrace(q, es) && i < |q.tasks|
  {
    i < |After(q, es).tasks| && After(q, es).tasks[i].status == q.tasks[i].status
  }

  lemma {:induction false} UnheldTerminalIsFrozen(q: Queue, es: seq<QEvent>, i: nat)
    requires Inv(q) && IsTrace(q, es) && i < |q.tasks| && Terminal(q.tasks[i].status) && !Held(q, i)
    ensures Frozen(q, es, i)
    decreases |es|
  {
    if es != [] {
      var q' := Apply(q, es[0]);
      StepKeepsInv(q, es[0]);
      assert q'.tasks[i] == q.tasks[i];
      assert !Held(q', i);
      UnheldTerminalIsFrozen(q', es[1..], i);
    }
  }

  /** "A finished row stays as it is" does not hold of `finish`.  It holds, for every
      continuation, exactly when no worker still holds a claim on the row. */
  lemma TerminalIsFinalIffUnheld(q: Queue, i: nat)
    requires Inv(q) && i < |q.tasks| && Terminal(q.tasks[i].status)
    ensures (forall es :: IsTrace(q, es) ==> Frozen(q, es, i)) <==> !Held(q, i)
  {
    if Held(q, i) {
      var w :| w in q.held && q.held[w] == i;
      var late := [Finish(w, if q.tasks[i].status.Succeeded? then "boom" else "")];
      OneStep(q, late[0]);
      assert !Frozen(q, late, i);
    } else {
      forall es | IsTrace(q, es) ensures Frozen(q, es, i) { UnheldTerminalIsFrozen(q, es, i); }
    }
  }

  /** Every holder is still inside its lease. */
  ghost predicate Timely(q: Queue) {
    forall w :: w in q.held && q.held[w] < |q.tasks| ==> !Overrun(q.tasks[q.held[w]], q.now, q.lockTimeout)
  }

  ghost predicate AlwaysTimely(q: Queue, es: seq<QEvent>)
    requires IsTrace(q, es)
    decreases |es|
  {
    Timely(q) && (es == [] || AlwaysTimely(Apply(q, es[0]), es[1..]))
  }

  /** A row is held by one worker at most, and only while it is running. */
  ghost predicate Exclusive(q: Queue) {
    && (forall w :: w in q.held ==> q.held[w] < |q.tasks| && q.tasks[q.held[w]].status.Running?)
    && (forall v, w :: v in q.held && w in q.held && v != w ==> q.held[v] != q.held[w])
  }

  lemma TimelyClaim(q: Queue, e: QEvent)
    requires Inv(q) && Exclusive(q) && Enabled(q, e) && Timely(q) && e.Claim?
    ensures Exclusive(Apply(q, e))
  {
    forall v | v in q.held ensures Recovered(q)[q.held[v]] == q.tasks[q.held[v]] {
      LeaseMeans(q.tasks[q.held[v]], q.now, q.lockTimeout);
    }
    if e.pick.Some? {
      assert forall v :: v in q.held ==> q.held[v] != e.pick.value;
    }
  }

  lemma TimelyFinish(q: Queue, e: QEvent)
    requires Inv(q) && Exclusive(q) && Enabled(q, e) && e.Finish?
    ensures Exclusive(Apply(q, e))
  {
    var q' := Apply(q, e);
    assert forall v :: v in q'.held ==> q'.held[v] == q.held[v] && q.held[v] != q.held[e.holder];
  }

  lemma TerminalKept(q: Queue, e: QEvent, i: nat)
    requires Inv(q) && Exclusive(q) && Enabled(q, e) && i < |q.tasks| && Terminal(q.tasks[i].status)
    ensures i < |Apply(q, e).tasks| && Apply(q, e).tasks[i].status == q.tasks[i].status
  {
  }

  lemma TimelyStep(q: Queue, e: QEvent)
    requires Inv(q) && Exclusive(q) && Enabled(q, e) && Timely(q)
    ensures Exclusive(Apply(q, e)) && |Apply(q, e).tasks| >= |q.tasks|
    ensures forall i :: 0 <= i < |q.tasks| && Terminal(q.tasks[i].status) ==>
              Apply(q, e).tasks[i].status == q.tasks[i].status
  {
    RowsKept(q, e);
    forall i | 0 <= i < |q.tasks| && Terminal(q.tasks[i].status)
      ensures Apply(q, e).tasks[i].status == q.tasks[i].status
    {
      TerminalKept(q, e, i);
    }
    if e.Claim? { TimelyClaim(q, e); } else if e.Finish? { TimelyFinish(q, e); }
  }

  /** Workers that finish or die inside their lease never share a row, and then a row that has
      reached a terminal status keeps it. */
  lemma {:induction false} TimelyWorkersNeverShare(q: Queue, es: seq<QEvent>)
    requires Inv(q) && Exclusive(q) && IsTrace(q, es) && AlwaysTimely(q, es)
    ensures Exclusive(After(q, es))
    ensures forall i :: 0 <= i < |q.tasks| && Terminal(q.tasks[i].status) ==> Frozen(q, es, i)
    decreases |es|
  {
    if es != [] {
      var q' := Apply(q, es[0]);
      StepKeepsInv(q, es[0]);
      TimelyStep(q, es[0]);
      TimelyWorkersNeverShare(q', es[1..]);
      forall i | 0 <= i < |q.tasks| && Terminal(q.tasks[i].status) ensures Frozen(q, es, i) {
        assert Frozen(q', es[1..], i);
      }
    }
  }
}
