/** The LLM provider router (llm_router.py) and the candidate filter of the factory (factory.py):
    a circuit breaker for each provider, the ordered failover, and streaming.  Providers are
    oracles; times are integers read from one clock that starts at zero or later. */
module Router {
  import opened Prelude

  datatype Config = Config(failN: nat, cooldown: int, fallbackOnEmpty: bool)

  // ---- The circuit breaker ------------------------------------------------------------------

  /** What the router learns about a provider, with the time at which it learns it. */
  datatype Report = Fail(name: string, at: int) | Succeed(name: string)

  /** A `_PROVIDER_HEALTH` record: [fail_count, cooldown_until]. */
  datatype Record = Record(fails: nat, until: int)

  function FailuresSinceSuccess(log: seq<Report>, p: string): nat {
    if log == [] then 0
    else
      var last, init := log[|log| - 1], log[..|log| - 1];
      if last.name != p then FailuresSinceSuccess(init, p)
      else if last.Fail? then FailuresSinceSuccess(init, p) + 1 else 0
  }

  function LastFailure(log: seq<Report>, p: string): Option<int> {
    if log == [] then None
    else
      var last := log[|log| - 1];
      if last.Fail? && last.name == p then Some(last.at) else LastFailure(log[..|log| - 1], p)
  }

  /** The breaker as a reader of the history would state it: open at `now` when the failures since
      the last success reach the threshold and the last of them is less than a cooldown ago. */
  predicate Open(cfg: Config, log: seq<Report>, p: string, now: int) {
    var n := FailuresSinceSuccess(log, p);
    n >= 1 && n >= cfg.failN && LastFailure(log, p).Some? && now < LastFailure(log, p).value + cfg.cooldown
  }

  /** What the stored record must say about the history; 0 stands for "no cooldown". */
  ghost predicate Represents(cfg: Config, r: Record, log: seq<Report>, p: string) {
    && r.fails == FailuresSinceSuccess(log, p)
    && (if r.fails >= 1 && r.fails >= cfg.failN
        then LastFailure(log, p).Some? && r.until == LastFailure(log, p).value + cfg.cooldown
        else r.until == 0)
  }

  class Breaker {
    const cfg: Config
    var health: map<string, Record>
    ghost var log: seq<Report>

    ghost predicate Valid()
      reads this
    {
      && (forall p :: p in health ==> Represents(cfg, health[p], log, p))
      && (forall p :: p !in health ==> FailuresSinceSuccess(log, p) == 0)
    }

    constructor (cfg: Config)
      ensures Valid() && log == [] && this.cfg == cfg
    {
      this.cfg := cfg;
      health := map[];
      log := [];
    }

    /** Unknown providers count as healthy; a cooldown of exactly 0 reads as none. */
    function IsHealthy(p: string, now: int): (b: bool)
      requires Valid() && now >= 0
      reads this
      ensures b <==> !Open(cfg, log, p, now)
    {
      p !in health || !(health[p].until != 0 && now < health[p].until)
    }

    method RecordFail(p: string, now: int)
      requires Valid()
      modifies this
      ensures Valid() && log == old(log) + [Fail(p, now)]
    {
      var r := if p in health then health[p] else Record(0, 0);
      r := r.(fails := r.fails + 1);
      if r.fails >= cfg.failN { r := r.(until := now + cfg.cooldown); }
      health := health[p := r];
      log := log + [Fail(p, now)];
      assert log[..|log| - 1] == old(log);
    }

    method RecordOk(p: string)
      requires Valid()
      modifies this
      ensures Valid() && log == old(log) + [Succeed(p)]
    {
      health := health[p := Record(0, 0)];
      log := log + [Succeed(p)];
      assert log[..|log| - 1] == old(log);
    }
  }

  // ---- The chain and the candidates ------------------------------------------------------------

  predicate Placeholder(p: string) { p == "" || p == "default" || p == "auto" }

  ghost predicate NoDuplicates(names: seq<string>) {
    forall i, j :: 0 <= i < j < |names| ==> names[i] != names[j]
  }

  /** `part` is `whole` with some elements left out, order kept. */
  ghost predicate Subsequence(part: seq<string>, whole: seq<string>) {
    if part == [] then true
    else if whole == [] then false
    else if part[0] == whole[0] then Subsequence(part[1..], whole[1..])
    else Subsequence(part, whole[1..])
  }

  /** The position of the first occurrence; the length when there is none. */
  function IndexOf(names: seq<string>, p: string): nat {
    if names == [] then 0 else if names[0] == p then 0 else 1 + IndexOf(names[1..], p)
  }

  /** The wanted names in order, without placeholders and repetitions. */
  function Chain(wanted: seq<string>): seq<string> {
    if wanted == [] then []
    else
      var chain, last := Chain(wanted[..|wanted| - 1]), wanted[|wanted| - 1];
      if Placeholder(last) || last in chain then chain else chain + [last]
  }

  method ResolveChain(modelType: Option<string>, fallback: seq<string>) returns (chain: seq<string>)
    ensures chain == Chain((if modelType.Some? then [modelType.value] else []) + fallback)
  {
    var wanted := (if modelType.Some? then [modelType.value] else []) + fallback;
    chain := [];
    var seen: set<string> := {};
    for n := 0 to |wanted|
      invariant chain == Chain(wanted[..n]) && forall p :: p in seen <==> p in chain
    {
      assert wanted[..n + 1][..n] == wanted[..n];
      if !Placeholder(wanted[n]) && wanted[n] !in seen {
        seen := seen + {wanted[n]};
        chain := chain + [wanted[n]];
      }
    }
    assert wanted[..|wanted|] == wanted;
  }

  /** The chain holds exactly the wanted names, each once, in the order of first mention: so the
      user's own choice comes first. */
  lemma {:induction false} ChainIsOrderedAndDistinct(wanted: seq<string>)
    ensures NoDuplicates(Chain(wanted))
    ensures forall p :: p in Chain(wanted) <==> p in wanted && p != "" && p != "default" && p != "auto"
    ensures forall i, j :: 0 <= i < j < |Chain(wanted)| ==>
              IndexOf(wanted, Chain(wanted)[i]) < IndexOf(wanted, Chain(wanted)[j]) < |wanted|
  {
    if wanted != [] {
      var n := |wanted| - 1;
      var init, last := wanted[..n], wanted[n];
      ChainIsOrderedAndDistinct(init);
      assert wanted == init + [last];
      var chain := Chain(init);
      forall i | 0 <= i < |chain| ensures IndexOf(wanted, chain[i]) == IndexOf(init, chain[i]) < n {
        assert chain[i] in chain;
        IndexInPrefix(init, [last], chain[i]);
      }
      if !Placeholder(last) && last !in chain {
        FirstAt(wanted, n);
      }
    }
  }

  lemma {:induction false} IndexInPrefix(a: seq<string>, b: seq<string>, p: string)
    requires p in a
    ensures IndexOf(a + b, p) == IndexOf(a, p) < |a|
  {
    assert (a + b)[0] == a[0];
    if a[0] != p {
      assert (a + b)[1..] == a[1..] + b;
      IndexInPrefix(a[1..], b, p);
    }
  }

  lemma {:induction false} FirstAt(names: seq<string>, n: nat)
    requires n < |names| && names[n] !in names[..n]
    ensures IndexOf(names, names[n]) == n
  {
    if n > 0 {
      assert names[0] in names[..n];
      assert forall x :: x in names[1..][..n - 1] ==> x in names[..n];
      FirstAt(names[1..], n - 1);
    }
  }

  function Healthy(names: seq<string>, b: Breaker, now: int): (r: seq<string>)
    requires b.Valid() && now >= 0
    reads b
    ensures forall p :: p in r <==> p in names && !Open(b.cfg, b.log, p, now)
    ensures Subsequence(r, names)
  {
    if names == [] then []
    else
      var rest := Healthy(names[1..], b, now);
      if b.IsHealthy(names[0], now) then [names[0]] + rest
      else SkipOne(rest, names); rest
  }

  lemma {:induction false} SkipOne(part: seq<string>, whole: seq<string>)
    requires whole != [] && Subsequence(part, whole[1..])
    ensures Subsequence(part, whole)
    decreases |whole|, 0
  {
    if part != [] && part[0] == whole[0] {
      DropFirst(part, whole[1..]);
    }
  }

  lemma {:induction false} DropFirst(part: seq<string>, whole: seq<string>)
    requires part != [] && Subsequence(part, whole)
    ensures Subsequence(part[1..], whole)
    decreases |whole|, 1
  {
    if part[0] == whole[0] {
      SkipOne(part[1..], whole);
    } else {
      DropFirst(part, whole[1..]);
      SkipOne(part[1..], whole);
    }
  }

  lemma {:induction false} Whole(names: seq<string>)
    ensures Subsequence(names, names)
  {
    if names != [] { Whole(names[1..]); }
  }

  lemma {:induction false} SubsequenceKeepsDistinct(part: seq<string>, whole: seq<string>)
    requires Subsequence(part, whole) && NoDuplicates(whole)
    ensures NoDuplicates(part)
    ensures forall p :: p in part ==> p in whole
    decreases |whole|
  {
    if part != [] {
      var tail := if part[0] == whole[0] then part[1..] else part;
      SubsequenceKeepsDistinct(tail, whole[1..]);
      if part[0] == whole[0] {
        assert part == [whole[0]] + part[1..];
        assert whole[0] !in whole[1..];
      }
    }
  }

  predicate Known(p: string) { p == "deepseek" || p == "qwen" || p == "doubao" || p == "ollama" }

  lemma FourAreKnown(p: string)
    ensures Known(p) <==> p in {"ollama", "doubao", "qwen", "deepseek"}
  {
  }

  function FullChain(provider: Option<string>, fallback: seq<string>, defaultName: string): seq<string> {
    var chain := Chain((if provider.Some? then [provider.value] else []) + fallback);
    if chain == [] then [defaultName] else chain
  }

  /** Names of the chain that may be called now: the closed breakers, or all when all are open. */
  ghost predicate Callable(chain: seq<string>, b: Breaker, now: int, p: string)
    reads b
  {
    p in chain && (!Open(b.cfg, b.log, p, now) || forall q :: q in chain ==> Open(b.cfg, b.log, q, now))
  }

  /** `get_llm_provider`: a cooling-down provider is a candidate only if all of them cool down. */
  method Candidates(provider: Option<string>, fallback: seq<string>, defaultName: string, b: Breaker, now: int)
    returns (r: Result<seq<string>>)
    requires b.Valid() && now >= 0
    ensures var chain := FullChain(provider, fallback, defaultName);
            && (r.Ok? ==> r.value != [] && NoDuplicates(r.value) && Subsequence(r.value, chain)
                          && forall p :: p in r.value <==> Callable(chain, b, now, p))
            && (r.Ok? <==> forall p :: Callable(chain, b, now, p) ==> Known(p))
  {
    var chain := ResolveChain(provider, fallback);
    ChainIsOrderedAndDistinct((if provider.Some? then [provider.value] else []) + fallback);
    if chain == [] { chain := [defaultName]; }
    var healthy := Healthy(chain, b, now);
    if healthy == [] {
      assert forall p :: p in chain ==> p !in healthy && Open(b.cfg, b.log, p, now);
      Whole(chain);
      healthy := chain;
    } else {
      SubsequenceKeepsDistinct(healthy, chain);
      assert healthy[0] in healthy && !Open(b.cfg, b.log, healthy[0], now);
    }
    assert forall p :: p in healthy <==> Callable(chain, b, now, p);
    if i :| 0 <= i < |healthy| && !Known(healthy[i]) {
      assert Callable(chain, b, now, healthy[i]);
      return Raise("ValueError");
    }
    return Ok(healthy);
  }

  // ---- Failover ----------------------------------------------------------------------------

  /** What a provider's call does: it raises, or returns a blank or a usable answer. */
  datatype Reply = Raises(error: string) | Blank(text: string) | Usable(text: string)

  predicate Accepted(cfg: Config, checkEmpty: bool, r: Reply) {
    r.Usable? || (r.Blank? && !(checkEmpty && cfg.fallbackOnEmpty))
  }

  /** What the caller gets: an answer, the exception of the last provider that raised, or nothing. */
  datatype Answer = Text(text: string) | Error(error: string) | Nothing

  /** The provider that wins: the first whose reply is accepted; the length when there is none. */
  function Winner(cfg: Config, checkEmpty: bool, replies: seq<Reply>): (k: nat)
    ensures k <= |replies| && (k < |replies| ==> Accepted(cfg, checkEmpty, replies[k]))
    ensures forall i :: 0 <= i < k ==> !Accepted(cfg, checkEmpty, replies[i])
  {
    if replies == [] || Accepted(cfg, checkEmpty, replies[0]) then 0
    else 1 + Winner(cfg, checkEmpty, replies[1..])
  }

  function LastAnswer(replies: seq<Reply>): Answer {
    if replies == [] then Nothing
    else
      var last := replies[|replies| - 1];
      var before := LastAnswer(replies[..|replies| - 1]);
      if last.Raises? then Error(last.error) else if before.Error? then before else Text(last.text)
  }

  /** One failure for each of the first `n` providers, at the times given by the clock. */
  function Failures(names: seq<string>, clock: nat -> int, n: nat): seq<Report>
    requires n <= |names|
  {
    if n == 0 then [] else Failures(names, clock, n - 1) + [Fail(names[n - 1], clock(n - 1))]
  }

  datatype Reason = NoReason | LocalOnly | EmptyFrom(name: string) | RaisedBy(name: string)

  function Blame(name: string, r: Reply): Reason { if r.Raises? then RaisedBy(name) else EmptyFrom(name) }

  function ReasonAfter(names: seq<string>, replies: seq<Reply>, k: nat): Reason
    requires k < |names| == |replies|
  {
    if k == 0 then NoReason
    else if names[k] == "ollama" then LocalOnly
    else Blame(names[k - 1], replies[k - 1])
  }

  /** `k` is the first provider whose reply may be passed on. */
  predicate FirstGood(replies: seq<Reply>, k: nat, skipBlanks: bool)
    requires k < |replies|
  {
    if skipBlanks then replies[k].Usable? && forall i :: 0 <= i < k ==> !replies[i].Usable?
    else !replies[k].Raises? && forall i :: 0 <= i < k ==> replies[i].Raises?
  }

  predicate PassedOver(r: Reply, skipBlanks: bool) { r.Raises? || (skipBlanks && r.Blank?) }

  predicate NoneGood(replies: seq<Reply>, skipBlanks: bool) {
    forall i :: 0 <= i < |replies| ==> PassedOver(replies[i], skipBlanks)
  }

  /** The log has grown by one failure for each of the first `n` providers, in order. */
  ghost predicate Reported(names: seq<string>, clock: nat -> int, n: nat, after: seq<Report>, before: seq<Report>)
    requires n <= |names|
  {
    && |after| == |before| + n && after[..|before|] == before
    && forall i :: 0 <= i < n ==> after[|before| + i] == Fail(names[i], clock(i))
  }

  ghost predicate IsLastRaise(replies: seq<Reply>, j: int) {
    0 <= j < |replies| && replies[j].Raises? && forall i :: j < i < |replies| ==> !replies[i].Raises?
  }

  /** Nobody's reply was passed on: the last exception if there was one, otherwise the last blank. */
  ghost predicate AnswerOfLosers(answer: Answer, replies: seq<Reply>) {
    if replies == [] then answer == Nothing
    else if exists j :: 0 <= j < |replies| && replies[j].Raises? then
      exists j :: IsLastRaise(replies, j) && answer == Error(replies[j].error)
    else answer == Text(replies[|replies| - 1].text)
  }

  /** Why provider `k` is used: by choice, as the local emergency model, or for its predecessor's fault. */
  function ReasonFor(names: seq<string>, replies: seq<Reply>, k: nat): Reason
    requires k < |names| == |replies|
  {
    if k == 0 then NoReason
    else if names[k] == "ollama" then LocalOnly
    else match replies[k - 1]
      case Raises(_) => RaisedBy(names[k - 1])
      case Blank(_) => EmptyFrom(names[k - 1])
      case Usable(_) => EmptyFrom(names[k - 1])
  }

  lemma {:induction false} FailuresAreReported(names: seq<string>, clock: nat -> int, n: nat, before: seq<Report>)
    requires n <= |names|
    ensures Reported(names, clock, n, before + Failures(names, clock, n), before)
    decreases n
  {
    if n > 0 {
      FailuresAreReported(names, clock, n - 1, before);
      var init := before + Failures(names, clock, n - 1);
      assert before + Failures(names, clock, n) == init + [Fail(names[n - 1], clock(n - 1))];
    }
  }

  /** The answer of the losers, and whether it is an exception. */
  ghost predicate LosersAnswer(replies: seq<Reply>) {
    && (LastAnswer(replies).Error? <==> exists j :: 0 <= j < |replies| && replies[j].Raises?)
    && AnswerOfLosers(LastAnswer(replies), replies)
  }

  lemma {:induction false} LastAnswerMeans(replies: seq<Reply>)
    ensures LosersAnswer(replies)
    decreases |replies|
  {
    if replies != [] {
      LastAnswerMeans(replies[..|replies| - 1]);
      LoserAdded(replies);
    }
  }

  lemma LoserAdded(replies: seq<Reply>)
    requires replies != [] && LosersAnswer(replies[..|replies| - 1])
    ensures LosersAnswer(replies)
  {
    var n := |replies| - 1;
    var init, last := replies[..n], replies[n];
    assert forall i :: 0 <= i < n ==> replies[i] == init[i];
    if last.Raises? {
      assert IsLastRaise(replies, n) && LastAnswer(replies) == Error(replies[n].error);
    } else if LastAnswer(init).Error? {
      var j :| IsLastRaise(init, j) && LastAnswer(init) == Error(init[j].error);
      assert IsLastRaise(replies, j) && replies[j] == init[j];
    }
  }

  /** What the object remembers of the last answer. */
  datatype Use = Use(name: string, degraded: bool, reason: Reason)

  /** Where blanks are passed over the first usable reply is the answer, otherwise the first that is no
      exception; each provider in front of it gets one failure and it gets one success. */
  ghost predicate RepliesDecide(names: seq<string>, replies: seq<Reply>, skipBlanks: bool, clock: nat -> int,
                                before: seq<Report>, after: seq<Report>, answer: Answer, use: Use, was: Use)
    requires |names| == |replies|
  {
    && (forall k :: 0 <= k < |names| && FirstGood(replies, k, skipBlanks) ==>
          && answer == Text(replies[k].text) && use == Use(names[k], k > 0, ReasonFor(names, replies, k))
          && |after| > 0 && after[|after| - 1] == Succeed(names[k])
          && Reported(names, clock, k, after[..|after| - 1], before))
    && (NoneGood(replies, skipBlanks) ==>
          AnswerOfLosers(answer, replies) && use == was && Reported(names, clock, |names|, after, before))
  }

  lemma WinnerIsFirstGood(cfg: Config, checkEmpty: bool, replies: seq<Reply>, skip: bool)
    requires skip <==> checkEmpty && cfg.fallbackOnEmpty
    ensures forall k :: 0 <= k < |replies| && FirstGood(replies, k, skip) ==> Winner(cfg, checkEmpty, replies) == k
    ensures NoneGood(replies, skip) <==> Winner(cfg, checkEmpty, replies) == |replies|
  {
    forall k | 0 <= k < |replies| && FirstGood(replies, k, skip) ensures Winner(cfg, checkEmpty, replies) == k {
      assert Accepted(cfg, checkEmpty, replies[k]);
      assert forall i :: 0 <= i < k ==> !Accepted(cfg, checkEmpty, replies[i]);
    }
    assert forall i :: 0 <= i < |replies| ==> Accepted(cfg, checkEmpty, replies[i]) != PassedOver(replies[i], skip);
  }

  lemma WinnerDecides(cfg: Config, checkEmpty: bool, names: seq<string>, replies: seq<Reply>, clock: nat -> int,
                      before: seq<Report>, was: Use)
    requires |names| == |replies| && Winner(cfg, checkEmpty, replies) < |names|
    ensures var k := Winner(cfg, checkEmpty, replies);
            RepliesDecide(names, replies, checkEmpty && cfg.fallbackOnEmpty, clock, before,
                          before + Failures(names, clock, k) + [Succeed(names[k])],
                          Text(replies[k].text), Use(names[k], k > 0, ReasonAfter(names, replies, k)), was)
  {
    var k := Winner(cfg, checkEmpty, replies);
    WinnerIsFirstGood(cfg, checkEmpty, replies, checkEmpty && cfg.fallbackOnEmpty);
    FailuresAreReported(names, clock, k, before);
    assert ReasonFor(names, replies, k) == ReasonAfter(names, replies, k);
    var failures := before + Failures(names, clock, k);
    DecidedBy(names, replies, checkEmpty && cfg.fallbackOnEmpty, clock, before, failures, k, was);
  }

  lemma DecidedBy(names: seq<string>, replies: seq<Reply>, skipBlanks: bool, clock: nat -> int, before: seq<Report>,
                  failures: seq<Report>, k: nat, was: Use)
    requires k < |names| == |replies| && !replies[k].Raises? && !NoneGood(replies, skipBlanks)
    requires forall i :: 0 <= i < |names| && FirstGood(replies, i, skipBlanks) ==> i == k
    requires Reported(names, clock, k, failures, before)
    ensures RepliesDecide(names, replies, skipBlanks, clock, before, failures + [Succeed(names[k])],
                          Text(replies[k].text), Use(names[k], k > 0, ReasonFor(names, replies, k)), was)
  {
    var after := failures + [Succeed(names[k])];
    assert after[..|after| - 1] == failures;
  }

  lemma LosersDecide(cfg: Config, checkEmpty: bool, names: seq<string>, replies: seq<Reply>, clock: nat -> int,
                     before: seq<Report>, was: Use)
    requires |names| == |replies| && Winner(cfg, checkEmpty, replies) == |names|
    ensures RepliesDecide(names, replies, checkEmpty && cfg.fallbackOnEmpty, clock, before,
                          before + Failures(names, clock, |names|), LastAnswer(replies), was, was)
  {
    WinnerIsFirstGood(cfg, checkEmpty, replies, checkEmpty && cfg.fallbackOnEmpty);
    FailuresAreReported(names, clock, |names|, before);
    LastAnswerMeans(replies);
  }

  class FallbackProvider {
    const names: seq<string>
    const breaker: Breaker
    var lastUsed: string
    var degraded: bool
    var degradeReason: Reason

    constructor (names: seq<string>, breaker: Breaker)
      ensures this.names == names && this.breaker == breaker && !degraded && degradeReason == NoReason
      ensures lastUsed == if names == [] then "unknown" else names[0]
    {
      this.names := names;
      this.breaker := breaker;
      lastUsed := if names == [] then "unknown" else names[0];
      degraded := false;
      degradeReason := NoReason;
    }

    /** The object after provider `k` has won. */
    ghost predicate WonBy(k: nat, replies: seq<Reply>)
      requires k < |names| == |replies|
      reads this
    {
      lastUsed == names[k] && (degraded <==> k > 0) && degradeReason == ReasonAfter(names, replies, k)
    }

    /** Both loops credit the provider that answers in this way. */
    method Credit(i: nat, lastReason: Reason)
      requires i < |names| && breaker.Valid()
      modifies this, breaker
      ensures breaker.Valid() && breaker.log == old(breaker.log) + [Succeed(names[i])]
      ensures lastUsed == names[i] && (degraded <==> i > 0)
      ensures degradeReason == if i == 0 then NoReason else if names[i] == "ollama" then LocalOnly else lastReason
    {
      breaker.RecordOk(names[i]);
      lastUsed := names[i];
      degraded := i > 0;
      degradeReason := if degraded && names[i] == "ollama" then LocalOnly
                       else if degraded then lastReason else NoReason;
    }

    method TryProviders(replies: seq<Reply>, checkEmpty: bool, clock: nat -> int) returns (answer: Answer)
      requires |replies| == |names| && breaker.Valid()
      modifies this, breaker
      ensures breaker.Valid()
      ensures var k := Winner(breaker.cfg, checkEmpty, replies);
              if k < |names| then
                && answer == Text(replies[k].text) && WonBy(k, replies)
                && breaker.log == old(breaker.log) + Failures(names, clock, k) + [Succeed(names[k])]
              else
                && answer == LastAnswer(replies)
                && breaker.log == old(breaker.log) + Failures(names, clock, |names|)
                && lastUsed == old(lastUsed) && degraded == old(degraded) && degradeReason == old(degradeReason)
      // The same, reply by reply.
      ensures RepliesDecide(names, replies, checkEmpty && breaker.cfg.fallbackOnEmpty, clock, old(breaker.log),
                            breaker.log, answer, Use(lastUsed, degraded, degradeReason),
                            old(Use(lastUsed, degraded, degradeReason)))
    {
      ghost var before, was := breaker.log, Use(lastUsed, degraded, degradeReason);
      var lastError, lastText: Option<string> := None, None;
      var lastReason := NoReason;
      assert replies[..0] == [];
      for i := 0 to |names|
        invariant breaker.Valid() && i <= Winner(breaker.cfg, checkEmpty, replies)
        invariant breaker.log == old(breaker.log) + Failures(names, clock, i)
        invariant lastUsed == old(lastUsed) && degraded == old(degraded) && degradeReason == old(degradeReason)
        invariant LastAnswer(replies[..i]) == Summary(lastError, lastText)
        invariant i > 0 ==> lastReason == Blame(names[i - 1], replies[i - 1])
      {
        assert replies[..i + 1][..i] == replies[..i];
        var reply := replies[i];
        if !Accepted(breaker.cfg, checkEmpty, reply) {
          if reply.Raises? { lastError := Some(reply.error); } else { lastText := Some(reply.text); }
          breaker.RecordFail(names[i], clock(i));
          lastReason := Blame(names[i], reply);
        } else {
          Credit(i, lastReason);
          WinnerDecides(breaker.cfg, checkEmpty, names, replies, clock, before, was);
          return Text(reply.text);
        }
      }
      assert replies[..|names|] == replies;
      answer := Summary(lastError, lastText);
      LosersDecide(breaker.cfg, checkEmpty, names, replies, clock, before, was);
    }

    /** Streaming.  `appetite` is how many tokens the caller takes before it goes away; a generator
        that is never advanced runs nothing. */
    method Stream(streams: seq<TokenStream>, appetite: nat, clock: nat -> int)
      returns (emitted: seq<string>, end: StreamEnd)
      requires |streams| == |names| && breaker.Valid() && appetite > 0
      modifies this, breaker
      ensures breaker.Valid()
      // No splicing: every token comes from one provider, and all before it stayed silent.
      ensures var k := Speaker(breaker.cfg, streams);
              if k == |names| then
                && emitted == [] && breaker.log == old(breaker.log) + Failures(names, clock, k)
                && end == LastStreamFailure(streams)
                && lastUsed == old(lastUsed) && degraded == old(degraded) && degradeReason == old(degradeReason)
              else if streams[k].tokens == [] then
                && emitted == [] && end == StreamDone && breaker.log == old(breaker.log) + Failures(names, clock, k)
                && lastUsed == old(lastUsed) && degraded == old(degraded) && degradeReason == old(degradeReason)
              else
                && breaker.log == old(breaker.log) + Failures(names, clock, k) + [Succeed(names[k])]
                && emitted == streams[k].tokens[..Min(appetite, |streams[k].tokens|)]
                && end == (if appetite <= |streams[k].tokens| then Abandoned else Ending(streams[k]))
                && lastUsed == names[k] && (degraded <==> k > 0)
                && degradeReason == ReasonAfter(names, AsReplies(streams), k)
    {
      var lastError: Option<string> := None;
      var lastReason := NoReason;
      emitted := [];
      assert streams[..0] == [] && LastStreamFailure([]) == StreamDone;
      for i := 0 to |names|
        invariant breaker.Valid() && emitted == [] && i <= Speaker(breaker.cfg, streams)
        invariant breaker.log == old(breaker.log) + Failures(names, clock, i)
        invariant lastUsed == old(lastUsed) && degraded == old(degraded) && degradeReason == old(degradeReason)
        invariant LastStreamFailure(streams[..i])
               == (if lastError.Some? then StreamRaised(lastError.value) else StreamDone)
        invariant i > 0 ==> lastReason == Blame(names[i - 1], AsReplies(streams)[i - 1])
      {
        LastFailureOf(streams, i);
        var s := streams[i];
        if s.tokens != [] {
          emitted, end := Relay(i, s, appetite, lastReason);
          return;
        }
        if s.failure.None? && !breaker.cfg.fallbackOnEmpty { return emitted, StreamDone; }
        if s.failure.Some? { lastError := s.failure; }
        breaker.RecordFail(names[i], clock(i));
        lastReason := if s.failure.Some? then RaisedBy(names[i]) else EmptyFrom(names[i]);
      }
      assert streams[..|names|] == streams;
      end := if lastError.Some? then StreamRaised(lastError.value) else StreamDone;
    }

    /** The inner loop: the tokens of provider `i`, which has at least one. */
    method Relay(i: nat, s: TokenStream, appetite: nat, lastReason: Reason)
      returns (emitted: seq<string>, end: StreamEnd)
      requires i < |names| && breaker.Valid() && appetite > 0 && s.tokens != []
      modifies this, breaker
      ensures breaker.Valid() && breaker.log == old(breaker.log) + [Succeed(names[i])]
      ensures lastUsed == names[i] && (degraded <==> i > 0)
      ensures degradeReason == if i == 0 then NoReason else if names[i] == "ollama" then LocalOnly else lastReason
      ensures emitted == s.tokens[..Min(appetite, |s.tokens|)]
      ensures end == if appetite <= |s.tokens| then Abandoned else Ending(s)
    {
      emitted := [];
      for n := 0 to |s.tokens|
        invariant breaker.Valid() && emitted == s.tokens[..n] && n < appetite
        invariant n == 0 ==> breaker.log == old(breaker.log)
        invariant n > 0 ==> breaker.log == old(breaker.log) + [Succeed(names[i])] && lastUsed == names[i]
                            && (degraded <==> i > 0)
                            && degradeReason == if i == 0 then NoReason
                                                else if names[i] == "ollama" then LocalOnly else lastReason
      {
        if n == 0 {
          Credit(i, lastReason);
        }
        emitted := emitted + [s.tokens[n]];
        if n + 1 == appetite { return emitted, Abandoned; }
      }
      end := Ending(s);
    }
  }

  function Summary(lastError: Option<string>, lastText: Option<string>): Answer {
    if lastError.Some? then Error(lastError.value) else if lastText.Some? then Text(lastText.value) else Nothing
  }

  /** The tokens a provider's stream yields, and the exception it then raises, if any. */
  datatype TokenStream = TokenStream(tokens: seq<string>, failure: Option<string>)

  datatype StreamEnd = StreamDone | StreamRaised(error: string) | Abandoned

  function Ending(s: TokenStream): StreamEnd { if s.failure.Some? then StreamRaised(s.failure.value) else StreamDone }

  /** How a stream that yields no token looks to the failover. */
  function AsReplies(streams: seq<TokenStream>): (r: seq<Reply>)
    ensures |r| == |streams|
    ensures forall i :: 0 <= i < |r| ==>
              r[i] == if streams[i].failure.Some? then Raises(streams[i].failure.value) else Blank("")
  {
    seq(|streams|, i requires 0 <= i < |streams| =>
      if streams[i].failure.Some? then Raises(streams[i].failure.value) else Blank(""))
  }

  predicate Silent(cfg: Config, s: TokenStream) { s.tokens == [] && (s.failure.Some? || cfg.fallbackOnEmpty) }

  /** The first provider that is not passed over; the length when all are. */
  function Speaker(cfg: Config, streams: seq<TokenStream>): (k: nat)
    ensures k <= |streams| && (k < |streams| ==> !Silent(cfg, streams[k]))
    ensures forall i :: 0 <= i < k ==> Silent(cfg, streams[i])
  {
    if streams == [] || !Silent(cfg, streams[0]) then 0 else 1 + Speaker(cfg, streams[1..])
  }

  lemma LastFailureOf(streams: seq<TokenStream>, i: nat)
    requires i < |streams|
    ensures LastStreamFailure(streams[..i + 1])
         == if streams[i].failure.Some? then StreamRaised(streams[i].failure.value) else LastStreamFailure(streams[..i])
  {
    assert streams[..i + 1][..i] == streams[..i];
  }

  function LastStreamFailure(streams: seq<TokenStream>): StreamEnd {
    if streams == [] then StreamDone
    else
      var last := streams[|streams| - 1];
      if last.failure.Some? then StreamRaised(last.failure.value) else LastStreamFailure(streams[..|streams| - 1])
  }
}
