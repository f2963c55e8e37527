/** The three-stage citation verifier (citation_verifier.py) with the controlled numbering it reads
    (citation_index.py) and the claim labelling it calls (llm_eval_core/rag.py). */
module Verifier {
  import opened Prelude
  import opened Text
  import opened Citation

  datatype CitationItem = CitationItem(sentence: string, refId: int, chunkId: string)

  datatype Action = Keep | Drop

  datatype VerifyItem = VerifyItem(refId: int, chunkId: string, valid: bool, nliLabel: string, action: Action)

  datatype VerifyResult = VerifyResult(
    items: seq<VerifyItem>, droppedRefs: seq<int>, unverified: seq<string>, degraded: bool, rewriteNeeded: bool)

  /** What the language model answers when asked to label claims; None is any failure. */
  type Reply = Option<seq<(string, string)>>

  datatype Nli = Off | TimedOut | Broken | Answers(reply: Reply)

  // ---- Controlled numbering ------------------------------------------------------------------

  /** The numbers 1..N stand for the N contexts and nothing else has a number. */
  method BuildIndex(chunkIds: seq<string>) returns (index: map<int, string>)
    ensures forall n :: n in index <==> 1 <= n <= |chunkIds|
    ensures forall n :: n in index ==> index[n] == chunkIds[n - 1]
  {
    index := map[];
    for i := 0 to |chunkIds|
      invariant forall n :: n in index <==> 1 <= n <= i
      invariant forall n :: n in index ==> index[n] == chunkIds[n - 1]
    {
      index := index[i + 1 := chunkIds[i]];
    }
  }

  function ChunkIdOf(refId: int, index: map<int, string>): string { if refId in index then index[refId] else "" }

  // ---- Labelling claims -----------------------------------------------------------------------

  const NEUTRAL := "neutral"
  const CONTRADICT := "contradict"
  const SUPPORT := "support"

  /** `labels.get(claim)`: the last row for a text wins. */
  function LabelIn(rows: seq<(string, string)>, claim: string): Option<string> {
    if rows == [] then None
    else
      var last := rows[|rows| - 1];
      if last.0 == claim then Some(last.1) else LabelIn(rows[..|rows| - 1], claim)
  }

  function LabelOf(reply: Reply, claim: string): string {
    if reply.None? then NEUTRAL
    else
      var l := LabelIn(reply.value, claim);
      if l == Some(SUPPORT) || l == Some(CONTRADICT) then l.value else NEUTRAL
  }

  function Labels(reply: Reply, claims: seq<string>): (r: seq<string>)
    ensures |r| == |claims|
    ensures forall i :: 0 <= i < |r| ==> r[i] == LabelOf(reply, claims[i])
  {
    seq(|claims|, i requires 0 <= i < |claims| => LabelOf(reply, claims[i]))
  }

  /** The last row of the reply for the claim gives it this label. */
  ghost predicate LastSays(rows: seq<(string, string)>, claim: string, mark: string) {
    exists j :: 0 <= j < |rows| && rows[j] == (claim, mark) && forall k :: j < k < |rows| ==> rows[k].0 != claim
  }

  lemma {:induction false} LabelInMeans(rows: seq<(string, string)>, claim: string, mark: string)
    ensures LabelIn(rows, claim) == Some(mark) <==> LastSays(rows, claim, mark)
    decreases |rows|
  {
    if rows != [] {
      var n := |rows| - 1;
      LabelInMeans(rows[..n], claim, mark);
      if rows[n].0 == claim {
        assert rows[n] == (rows[n].0, rows[n].1);
      } else {
        assert rows == rows[..n] + [rows[n]];
        OtherRowSaysNothing(rows[..n], rows[n], claim, mark);
      }
    }
  }

  lemma OtherRowSaysNothing(rows: seq<(string, string)>, row: (string, string), claim: string, mark: string)
    requires row.0 != claim
    ensures LastSays(rows + [row], claim, mark) <==> LastSays(rows, claim, mark)
  {
    var more := rows + [row];
    if LastSays(more, claim, mark) {
      var j :| 0 <= j < |more| && more[j] == (claim, mark) && forall k :: j < k < |more| ==> more[k].0 != claim;
      assert forall k :: 0 <= k < |rows| ==> rows[k] == more[k];
    }
    if LastSays(rows, claim, mark) {
      var j :| 0 <= j < |rows| && rows[j] == (claim, mark) && forall k :: j < k < |rows| ==> rows[k].0 != claim;
      assert more[j] == (claim, mark);
    }
  }

  lemma LabelsMean(reply: Reply, claims: seq<string>)
    ensures forall i :: 0 <= i < |claims| ==> LabelOf(reply, claims[i]) in {"support", "contradict", "neutral"}
    ensures forall i :: 0 <= i < |claims| && LabelOf(reply, claims[i]) != "neutral" ==>
              reply.Some? && LastSays(reply.value, claims[i], LabelOf(reply, claims[i]))
    ensures forall i :: 0 <= i < |claims| && LabelOf(reply, claims[i]) == "neutral" && reply.Some? ==>
              !LastSays(reply.value, claims[i], "support") && !LastSays(reply.value, claims[i], "contradict")
  {
    if reply.Some? {
      forall i, mark: string | 0 <= i < |claims|
        ensures LabelIn(reply.value, claims[i]) == Some(mark) <==> LastSays(reply.value, claims[i], mark)
      {
        LabelInMeans(reply.value, claims[i], mark);
      }
    }
  }

  /** `verify_claims`: blank claims are left out, so there may be fewer labels than claims. */
  function VerifyClaims(claims: seq<string>, sources: seq<string>, reply: Reply): (r: seq<string>)
    ensures |r| == |NonBlank(claims)| && forall i :: 0 <= i < |r| ==> r[i] in {"support", "contradict", "neutral"}
    ensures forall i :: 0 <= i < |r| && r[i] != "neutral" ==>
              NonBlank(sources) != [] && reply.Some? && LastSays(reply.value, NonBlank(claims)[i], r[i])
    ensures forall i :: 0 <= i < |r| && r[i] == "neutral" && NonBlank(sources) != [] && reply.Some? ==>
              !LastSays(reply.value, NonBlank(claims)[i], "support")
              && !LastSays(reply.value, NonBlank(claims)[i], "contradict")
  {
    LabelsMean(reply, NonBlank(claims));
    if NonBlank(sources) == [] then Labels(None, NonBlank(claims)) else Labels(reply, NonBlank(claims))
  }

  lemma {:induction false} NonBlankSize(parts: seq<string>)
    ensures |NonBlank(parts)| <= |parts|
    ensures |NonBlank(parts)| == |parts| <==> forall p :: p in parts ==> Strip(p) != ""
    ensures |NonBlank(parts)| == |parts| ==> forall i :: 0 <= i < |parts| ==> NonBlank(parts)[i] == Strip(parts[i])
  {
    if parts != [] {
      NonBlankSize(parts[1..]);
      assert parts == [parts[0]] + parts[1..];
    }
  }

  // ---- Unsupported high-risk sentences --------------------------------------------------------------

  const HIGH_RISK: seq<string> := [
    "\U{4E0D}", "\U{7981}", "\U{65E0}", "\U{8D85}\U{8FC7}", "\U{4E0D}\U{8D85}\U{8FC7}", "\U{9650}",
    "\U{5143}", "\U{5929}", "\U{5C0F}\U{65F6}", "\U{514D}\U{8D23}", "\U{9664}\U{5916}"]

  predicate Contains(s: string, k: string) { k <= s || (s != "" && Contains(s[1..], k)) }

  predicate Risky(s: string) { (exists k :: k in HIGH_RISK && Contains(s, k)) && Extract(s) == [] }

  function RiskySentences(sentences: seq<string>): seq<string> {
    if sentences == [] then []
    else (if Risky(sentences[0]) then [sentences[0]] else []) + RiskySentences(sentences[1..])
  }

  /** The sentence names a quantity, a limit, a time, a price, a negation or an exemption. */
  ghost predicate NamesRisk(s: string) {
    || Holds(s, "\U{4E0D}") || Holds(s, "\U{7981}") || Holds(s, "\U{65E0}") || Holds(s, "\U{8D85}\U{8FC7}")
    || Holds(s, "\U{4E0D}\U{8D85}\U{8FC7}") || Holds(s, "\U{9650}") || Holds(s, "\U{5143}") || Holds(s, "\U{5929}")
    || Holds(s, "\U{5C0F}\U{65F6}") || Holds(s, "\U{514D}\U{8D23}") || Holds(s, "\U{9664}\U{5916}")
  }

  ghost predicate Holds(s: string, k: string) { exists a, b :: s == a + k + b }

  lemma {:induction false} ContainsMeans(s: string, k: string)
    ensures Contains(s, k) <==> Holds(s, k)
  {
    if k <= s {
      assert s == "" + k + s[|k|..];
    } else if s != "" {
      ContainsMeans(s[1..], k);
      ShiftHolds(s, k);
    } else {
      assert forall a, b :: a + k + b == "" ==> |k| == 0;
    }
  }

  lemma ShiftHolds(s: string, k: string)
    requires s != "" && !(k <= s)
    ensures Holds(s, k) <==> Holds(s[1..], k)
  {
    if a, b :| s == a + k + b {
      assert k <= k + b && (a == "" ==> s == k + b);
      assert s[1..] == a[1..] + k + b;
    }
    if a, b :| s[1..] == a + k + b { assert s == ([s[0]] + a) + k + b; }
  }

  lemma OneOfEleven(s: string, ks: seq<string>)
    requires |ks| == 11
    ensures (exists k :: k in ks && Contains(s, k)) <==>
              || Holds(s, ks[0]) || Holds(s, ks[1]) || Holds(s, ks[2]) || Holds(s, ks[3]) || Holds(s, ks[4])
              || Holds(s, ks[5]) || Holds(s, ks[6]) || Holds(s, ks[7]) || Holds(s, ks[8]) || Holds(s, ks[9])
              || Holds(s, ks[10])
  {
    forall i | 0 <= i < |ks| ensures Contains(s, ks[i]) <==> Holds(s, ks[i]) { ContainsMeans(s, ks[i]); }
    assert forall i :: 0 <= i < |ks| ==> ks[i] in ks;
  }

  lemma RiskyMeans(s: string)
    ensures Risky(s) <==> NamesRisk(s) && Extract(s) == []
  {
    OneOfEleven(s, HIGH_RISK);
  }

  /** The sentences reported as unverified: exactly those that name a risk and cite nothing. */
  lemma {:induction false} ReportedRisks(sentences: seq<string>)
    ensures forall s :: s in RiskySentences(sentences) <==> s in sentences && NamesRisk(s) && Extract(s) == []
  {
    if sentences != [] {
      ReportedRisks(sentences[1..]);
      RiskyMeans(sentences[0]);
      assert sentences == [sentences[0]] + sentences[1..];
    }
  }

  function HighRiskUnverified(answer: string): seq<string> { RiskySentences(SplitSentences(answer)) }

  lemma BlankHasNoSentences(answer: string)
    requires Strip(answer) == ""
    ensures HighRiskUnverified(answer) == []
  {
    SplitKeepsInk(answer);
    InkOfLead(answer);
    InkOfTrail(Lead(answer));
    SplitYieldsSentences(answer);
    SentencesHaveInk(SplitSentences(answer));
  }

  lemma SentencesHaveInk(list: seq<string>)
    requires Sentences(list)
    ensures list != [] ==> Ink(Join(list)) != ""
  {
    if list != [] {
      InkOfConcat(list[0], Join(list[1..]));
      assert IsSentence(list[0]) && Ink(list[0])[0] == list[0][0];
    }
  }

  // ---- The stages -----------------------------------------------------------------------------

  predicate Legal(it: CitationItem, index: map<int, string>) { ChunkIdOf(it.refId, index) != "" }

  /** The elements whose flag is the wanted one, in order. */
  function Select<T>(items: seq<T>, keep: seq<bool>, wanted: bool): seq<T>
    requires |items| == |keep|
  {
    if items == [] then []
    else
      var n := |items| - 1;
      Select(items[..n], keep[..n], wanted) + if keep[n] == wanted then [items[n]] else []
  }

  /** How many of the first `k` flags are the wanted one. */
  ghost function Before(keep: seq<bool>, wanted: bool, k: nat): nat
    requires k <= |keep|
  {
    if k == 0 then 0 else Before(keep, wanted, k - 1) + if keep[k - 1] == wanted then 1 else 0
  }

  lemma {:induction false} BeforeInPrefix(keep: seq<bool>, wanted: bool, n: nat, k: nat)
    requires k <= n <= |keep|
    ensures Before(keep[..n], wanted, k) == Before(keep, wanted, k)
  {
    if k > 0 { BeforeInPrefix(keep, wanted, n, k - 1); }
  }

  lemma {:induction false} SelectedSize<T>(items: seq<T>, keep: seq<bool>, wanted: bool)
    requires |items| == |keep|
    ensures |Select(items, keep, wanted)| == Before(keep, wanted, |keep|)
    decreases |items|
  {
    if items != [] {
      var n := |items| - 1;
      SelectedSize(items[..n], keep[..n], wanted);
      BeforeInPrefix(keep, wanted, n, n);
    }
  }

  /** A selected element stands behind as many as were selected before it. */
  lemma {:induction false} SelectedAt<T>(items: seq<T>, keep: seq<bool>, wanted: bool, k: nat)
    requires k < |items| == |keep| && keep[k] == wanted
    ensures Before(keep, wanted, k) < |Select(items, keep, wanted)|
    ensures Select(items, keep, wanted)[Before(keep, wanted, k)] == items[k]
    decreases |items|
  {
    var n := |items| - 1;
    SelectedSize(items[..n], keep[..n], wanted);
    BeforeInPrefix(keep, wanted, n, k);
    if k < n { SelectedAt(items[..n], keep[..n], wanted, k); }
  }

  /** The selection holds nothing but selected elements. */
  lemma {:induction false} SelectedFrom<T>(items: seq<T>, keep: seq<bool>, wanted: bool, p: nat) returns (k: nat)
    requires |items| == |keep| && p < |Select(items, keep, wanted)|
    ensures k < |items| && keep[k] == wanted && Before(keep, wanted, k) == p
    ensures Select(items, keep, wanted)[p] == items[k]
    decreases |items|
  {
    var n := |items| - 1;
    if p < |Select(items[..n], keep[..n], wanted)| {
      k := SelectedFrom(items[..n], keep[..n], wanted, p);
    } else {
      k := n;
      SelectedSize(items[..n], keep[..n], wanted);
    }
    BeforeInPrefix(keep, wanted, n, k);
  }

  function LegalFlags(items: seq<CitationItem>, index: map<int, string>): (r: seq<bool>)
    ensures |r| == |items| && forall i :: 0 <= i < |r| ==> r[i] == Legal(items[i], index)
  {
    seq(|items|, i requires 0 <= i < |items| => Legal(items[i], index))
  }

  /** Reading `sim[i][i]` outside the row raises. */
  predicate SimUsable(sim: Option<seq<seq<real>>>, n: nat) {
    sim.Some? && forall i :: 0 <= i < n && i < |sim.value| && sim.value[i] != [] ==> i < |sim.value[i]|
  }

  function SimFlags(sim: seq<seq<real>>, n: nat, threshold: real): (r: seq<bool>)
    requires SimUsable(Some(sim), n)
    ensures |r| == n
    ensures forall i :: 0 <= i < n ==> r[i] == (i < |sim| && sim[i] != [] && sim[i][i] >= threshold)
  {
    seq(n, i requires 0 <= i < n => i < |sim| && sim[i] != [] && sim[i][i] >= threshold)
  }

  function Survivors1(items: seq<CitationItem>, index: map<int, string>): seq<CitationItem> {
    Select(items, LegalFlags(items, index), true)
  }

  /** What checks 1 and 2 pass; when the embeddings fail, check 2 passes everything. */
  function Survivors2(items: seq<CitationItem>, index: map<int, string>, sim: Option<seq<seq<real>>>, threshold: real)
    : seq<CitationItem>
  {
    var v1 := Survivors1(items, index);
    if SimUsable(sim, |v1|) then Select(v1, SimFlags(sim.value, |v1|, threshold), true) else v1
  }

  function Dropped(it: CitationItem, mark: string): VerifyItem {
    VerifyItem(it.refId, it.chunkId, false, mark, Drop)
  }

  function Kept(it: CitationItem, mark: string): VerifyItem { VerifyItem(it.refId, it.chunkId, true, mark, Keep) }

  function AllDropped(items: seq<CitationItem>, mark: string): (r: seq<VerifyItem>)
    ensures |r| == |items| && forall i :: 0 <= i < |r| ==> r[i] == Dropped(items[i], mark)
  {
    seq(|items|, i requires 0 <= i < |items| => Dropped(items[i], mark))
  }

  function AllKept(items: seq<CitationItem>): (r: seq<VerifyItem>)
    ensures |r| == |items| && forall i :: 0 <= i < |r| ==> r[i] == Kept(items[i], "unknown")
  {
    seq(|items|, i requires 0 <= i < |items| => Kept(items[i], "unknown"))
  }

  function Judged(it: CitationItem, mark: string): VerifyItem {
    if mark == CONTRADICT then Dropped(it, CONTRADICT) else Kept(it, mark)
  }

  /** `zip(valid_items, verdicts)`: items beyond the last verdict get no entry at all. */
  function Verdicts(items: seq<CitationItem>, labels: seq<string>): (r: seq<VerifyItem>)
    ensures |r| == Min(|items|, |labels|)
    ensures forall i :: 0 <= i < |r| ==> r[i] == Judged(items[i], labels[i])
  {
    seq(Min(|items|, |labels|), i requires 0 <= i < Min(|items|, |labels|) => Judged(items[i], labels[i]))
  }

  function RefsOfDrops(items: seq<VerifyItem>): seq<int> {
    if items == [] then []
    else
      var n := |items| - 1;
      RefsOfDrops(items[..n]) + if items[n].action.Drop? then [items[n].refId] else []
  }

  function SourceOf(it: CitationItem, chunks: map<string, string>): string {
    if it.chunkId in chunks then chunks[it.chunkId] else ""
  }

  function SentencesOf(items: seq<CitationItem>): (r: seq<string>)
    ensures |r| == |items| && forall i :: 0 <= i < |r| ==> r[i] == items[i].sentence
  {
    seq(|items|, i requires 0 <= i < |items| => items[i].sentence)
  }

  function Sources(items: seq<CitationItem>, chunks: map<string, string>): (r: seq<string>)
    ensures |r| == |items| && forall i :: 0 <= i < |r| ==> r[i] == SourceOf(items[i], chunks)
  {
    seq(|items|, i requires 0 <= i < |items| => SourceOf(items[i], chunks))
  }

  /** The entries of check 3 for the items that reach it. */
  function FinalItems(v2: seq<CitationItem>, chunks: map<string, string>, simOk: bool, nli: Nli): seq<VerifyItem> {
    if v2 != [] && simOk && nli.Answers? then
      Verdicts(v2, VerifyClaims(SentencesOf(v2), Sources(v2, chunks), nli.reply))
    else AllKept(v2)
  }

  /** The citations that check 1, and then check 2, drops. */
  function Fallen1(items: seq<CitationItem>, index: map<int, string>): seq<CitationItem> {
    Select(items, LegalFlags(items, index), false)
  }

  function Fallen2(items: seq<CitationItem>, index: map<int, string>, sim: Option<seq<seq<real>>>, threshold: real)
    : seq<CitationItem>
  {
    var v1 := Survivors1(items, index);
    if SimUsable(sim, |v1|) then Select(v1, SimFlags(sim.value, |v1|, threshold), false) else []
  }

  /** All entries of a verification, stage by stage. */
  function AllItems(items: seq<CitationItem>, index: map<int, string>, chunks: map<string, string>,
                    sim: Option<seq<seq<real>>>, threshold: real, nli: Nli): seq<VerifyItem> {
    AllDropped(Fallen1(items, index), "unknown")
    + AllDropped(Fallen2(items, index, sim, threshold), "low_sim")
    + FinalItems(Survivors2(items, index, sim, threshold), chunks, SimUsable(sim, |Survivors1(items, index)|), nli)
  }

  predicate NothingKept(items: seq<VerifyItem>) { forall v :: v in items ==> v.action.Drop? }

  predicate NliFailed(v2: seq<CitationItem>, simOk: bool, nli: Nli) {
    v2 != [] && simOk && (nli.TimedOut? || nli.Broken?)
  }

  method Verify(answer: string, items: seq<CitationItem>, index: map<int, string>, chunks: map<string, string>,
                sim: Option<seq<seq<real>>>, threshold: real, nli: Nli)
    returns (r: VerifyResult)
    ensures r.items == AllItems(items, index, chunks, sim, threshold, nli)
    ensures r.droppedRefs == RefsOfDrops(r.items)
    ensures var v1, v2 := Survivors1(items, index), Survivors2(items, index, sim, threshold);
            r.degraded <==> v1 != [] && (!SimUsable(sim, |v1|) || NliFailed(v2, SimUsable(sim, |v1|), nli))
    // A rewrite is asked for exactly when nothing was kept, save for a blank answer without any
    // legal reference.
    ensures r.rewriteNeeded <==> NothingKept(r.items) && (Strip(answer) != "" || Survivors1(items, index) != [])
    ensures r.unverified == if NothingKept(r.items) then HighRiskUnverified(answer) else []
    ensures OnlyNumberedKept(r, items, index)
  {
    var valid, out := Check1(items, index);
    if valid == [] {
      NoSurvivors(items, index, chunks, sim, threshold, nli);
      if Strip(answer) == "" { BlankHasNoSentences(answer); }
      var unverified := HighRiskUnverified(answer);
      r := VerifyResult(out, RefsOfDrops(out), unverified, false, unverified != [] || Strip(answer) != "");
      NumberedAreKept(r, items, index, chunks, sim, threshold, nli);
      return;
    }
    var simOk := SimUsable(sim, |valid|);
    var low, final;
    valid, low := Check2(items, index, valid, sim, threshold);
    final := FinalItems(valid, chunks, simOk, nli);
    RefsOfThree(out, low, final);
    var dropped := RefsOfDrops(out) + RefsOfDrops(low) + RefsOfDrops(final);
    out := out + low + final;
    var nothing := NothingKept(out);
    r := VerifyResult(out, dropped, if nothing then HighRiskUnverified(answer) else [],
                      !simOk || NliFailed(valid, simOk, nli), nothing);
    NumberedAreKept(r, items, index, chunks, sim, threshold, nli);
  }

  /** Only a reference in the index is kept, and one that is not is reported as dropped. */
  ghost predicate OnlyNumberedKept(r: VerifyResult, items: seq<CitationItem>, index: map<int, string>) {
    && (forall v :: v in r.items && v.action.Keep? ==> v.refId in index && index[v.refId] != "")
    && (forall it :: it in items && !(it.refId in index && index[it.refId] != "") ==> it.refId in r.droppedRefs)
  }

  lemma NumberedAreKept(r: VerifyResult, items: seq<CitationItem>, index: map<int, string>, chunks: map<string, string>,
                    sim: Option<seq<seq<real>>>, threshold: real, nli: Nli)
    requires r.items == AllItems(items, index, chunks, sim, threshold, nli) && r.droppedRefs == RefsOfDrops(r.items)
    ensures OnlyNumberedKept(r, items, index)
  {
    EveryEntryMeans(items, index, chunks, sim, threshold, nli);
    ListedDrops(r.items);
    forall v | v in r.items && v.action.Keep? ensures v.refId in index && index[v.refId] != "" {
      var k: nat :| KeptFor(v, items, index, sim, threshold, k);
    }
    forall it | it in items && !(it.refId in index && index[it.refId] != "") ensures it.refId in r.droppedRefs {
      var k :| 0 <= k < |items| && items[k] == it;
      assert CitationMeans(r.items, items, index, sim, threshold, nli, k);
    }
  }

  /** The number of the citation stands for a context. */
  predicate Numbered(it: CitationItem, index: map<int, string>) { it.refId in index && index[it.refId] != "" }

  /** How many of the first `k` citations are numbered: the place of a numbered one after check 1. */
  ghost function Place(items: seq<CitationItem>, index: map<int, string>, k: nat): nat
    requires k <= |items|
  {
    if k == 0 then 0 else Place(items, index, k - 1) + if Numbered(items[k - 1], index) then 1 else 0
  }

  lemma {:induction false} PlaceCounts(items: seq<CitationItem>, index: map<int, string>, k: nat)
    requires k <= |items|
    ensures Place(items, index, k) == Before(LegalFlags(items, index), true, k) <= k
    ensures k - Place(items, index, k) == Before(LegalFlags(items, index), false, k)
  {
    if k > 0 { PlaceCounts(items, index, k - 1); }
  }

  lemma SurvivorsSize(items: seq<CitationItem>, index: map<int, string>)
    ensures |Survivors1(items, index)| == Place(items, index, |items|)
    ensures |Fallen1(items, index)| == |items| - Place(items, index, |items|)
  {
    PlaceCounts(items, index, |items|);
    SelectedSize(items, LegalFlags(items, index), true);
    SelectedSize(items, LegalFlags(items, index), false);
  }

  /** Check 1 by place: the numbered citations pass in order, and the others are dropped in order. */
  lemma CheckedStands(items: seq<CitationItem>, index: map<int, string>, k: nat)
    requires k < |items|
    ensures var p := Place(items, index, k);
            if Numbered(items[k], index)
            then p < |Survivors1(items, index)| && Survivors1(items, index)[p] == items[k]
            else p <= k && k - p < |Fallen1(items, index)| && Fallen1(items, index)[k - p] == items[k]
  {
    PlaceCounts(items, index, k);
    SelectedAt(items, LegalFlags(items, index), Numbered(items[k], index), k);
  }

  lemma SurvivorsAreNumbered(items: seq<CitationItem>, index: map<int, string>)
    ensures forall it :: it in Survivors1(items, index) <==> it in items && it.refId in index && index[it.refId] != ""
  {
    var v1 := Survivors1(items, index);
    forall it | it in v1 ensures it in items && Numbered(it, index) {
      var p :| 0 <= p < |v1| && v1[p] == it;
      var k := SurvivorStands(items, index, p);
    }
    forall it | it in items && Numbered(it, index) ensures it in v1 {
      var k :| 0 <= k < |items| && items[k] == it;
      CheckedStands(items, index, k);
      assert v1[Place(items, index, k)] == it;
    }
  }

  lemma SurvivorStands(items: seq<CitationItem>, index: map<int, string>, p: nat) returns (k: nat)
    requires p < |Survivors1(items, index)|
    ensures k < |items| && Numbered(items[k], index) && Place(items, index, k) == p
    ensures Survivors1(items, index)[p] == items[k]
  {
    k := SelectedFrom(items, LegalFlags(items, index), true, p);
    PlaceCounts(items, index, k);
  }

  /** The similarity of the sentence at place `p` to its own source reaches the threshold. */
  predicate Reaches(sim: seq<seq<real>>, threshold: real, p: nat) {
    p < |sim| && p < |sim[p]| && sim[p][p] >= threshold
  }

  /** No row is too short for its own place: reading the similarities raises nothing. */
  predicate Readable(sim: Option<seq<seq<real>>>, n: nat) {
    sim.Some? && forall i :: 0 <= i < n && i < |sim.value| ==> |sim.value[i]| == 0 || |sim.value[i]| > i
  }

  /** A result is degraded exactly when some citation is numbered and either the similarities cannot be
      read or check 3 fails or times out with a citation before it. */
  lemma DegradedMeans(items: seq<CitationItem>, index: map<int, string>, sim: Option<seq<seq<real>>>, threshold: real,
                      nli: Nli)
    ensures var v1, v2 := Survivors1(items, index), Survivors2(items, index, sim, threshold);
            var readable := Readable(sim, Place(items, index, |items|));
            (v1 != [] && (!SimUsable(sim, |v1|) || NliFailed(v2, SimUsable(sim, |v1|), nli))
             <==> && (exists k :: 0 <= k < |items| && Numbered(items[k], index))
                  && (!readable
                      || ((nli == TimedOut || nli == Broken)
                          && exists k :: 0 <= k < |items| && Numbered(items[k], index)
                                         && Reaches(sim.value, threshold, Place(items, index, k)))))
  {
    var v1, v2 := Survivors1(items, index), Survivors2(items, index, sim, threshold);
    SurvivorsSize(items, index);
    if v1 != [] { var k := SurvivorStands(items, index, 0); }
    if k :| 0 <= k < |items| && Numbered(items[k], index) { CheckedStands(items, index, k); }
    if SimUsable(sim, |v1|) {
      if v2 != [] {
        var p := CloseFrom(items, index, sim, threshold, 0);
        var k := SurvivorStands(items, index, p);
      }
      if k :| 0 <= k < |items| && Numbered(items[k], index) && Reaches(sim.value, threshold, Place(items, index, k)) {
        CheckedStands(items, index, k);
        CloseStand(items, index, sim, threshold, Place(items, index, k));
      }
    }
  }

  /** What the checks say about citation `k`, entry by entry. */
  ghost predicate CitationMeans(entries: seq<VerifyItem>, items: seq<CitationItem>, index: map<int, string>,
                                sim: Option<seq<seq<real>>>, threshold: real, nli: Nli, k: nat)
    requires k < |items|
  {
    var it, p := items[k], Place(items, index, k);
    var usable := Readable(sim, Place(items, index, |items|));
    if !Numbered(it, index) then VerifyItem(it.refId, it.chunkId, false, "unknown", Drop) in entries
    else if usable && !Reaches(sim.value, threshold, p) then
      VerifyItem(it.refId, it.chunkId, false, "low_sim", Drop) in entries
    else if usable && nli.Answers? then true    // see LabelsMeetTheirSentences
    else VerifyItem(it.refId, it.chunkId, true, "unknown", Keep) in entries
  }

  /** Entry `v` is kept for a citation that is numbered and close to its source, and not contradicted. */
  ghost predicate KeptFor(v: VerifyItem, items: seq<CitationItem>, index: map<int, string>,
                          sim: Option<seq<seq<real>>>, threshold: real, k: nat) {
    && k < |items| && v.refId == items[k].refId && v.chunkId == items[k].chunkId && Numbered(items[k], index)
    && (Readable(sim, Place(items, index, |items|)) ==> Reaches(sim.value, threshold, Place(items, index, k)))
    && v.valid && v.nliLabel in {"unknown", "support", "neutral"}
  }

  ghost predicate EntriesMean(entries: seq<VerifyItem>, items: seq<CitationItem>, index: map<int, string>,
                              sim: Option<seq<seq<real>>>, threshold: real, nli: Nli) {
    && (forall k :: 0 <= k < |items| ==> CitationMeans(entries, items, index, sim, threshold, nli, k))
    && (forall v :: v in entries && v.action.Keep? ==> exists k: nat :: KeptFor(v, items, index, sim, threshold, k))
    && (forall v :: v in entries && v.action.Drop? ==> DropMeans(v, nli))
  }

  /** The entries of a verification, citation by citation and entry by entry. */
  lemma EveryEntryMeans(items: seq<CitationItem>, index: map<int, string>, chunks: map<string, string>,
                        sim: Option<seq<seq<real>>>, threshold: real, nli: Nli)
    ensures EntriesMean(AllItems(items, index, chunks, sim, threshold, nli), items, index, sim, threshold, nli)
  {
    var entries := AllItems(items, index, chunks, sim, threshold, nli);
    forall k | 0 <= k < |items| ensures CitationMeans(entries, items, index, sim, threshold, nli, k) {
      CitationIsEntered(items, index, chunks, sim, threshold, nli, k);
    }
    forall v | v in entries && v.action.Keep? ensures exists k: nat :: KeptFor(v, items, index, sim, threshold, k) {
      var k := KeptEntry(items, index, chunks, sim, threshold, nli, v);
    }
    forall v | v in entries && v.action.Drop? ensures DropMeans(v, nli) {
      DroppedEntry(items, index, chunks, sim, threshold, nli, v);
    }
  }

  predicate DropMeans(v: VerifyItem, nli: Nli) {
    !v.valid && (v.nliLabel in {"unknown", "low_sim"} || (v.nliLabel == "contradict" && nli.Answers?))
  }

  lemma DroppedEntry(items: seq<CitationItem>, index: map<int, string>, chunks: map<string, string>,
                     sim: Option<seq<seq<real>>>, threshold: real, nli: Nli, v: VerifyItem)
    requires v in AllItems(items, index, chunks, sim, threshold, nli) && v.action.Drop?
    ensures DropMeans(v, nli)
  {
    FinalDropsMean(Survivors2(items, index, sim, threshold), chunks, SimUsable(sim, |Survivors1(items, index)|), nli);
  }

  lemma FinalDropsMean(v2: seq<CitationItem>, chunks: map<string, string>, simOk: bool, nli: Nli)
    ensures forall v :: v in FinalItems(v2, chunks, simOk, nli) && v.action.Drop? ==>
              !v.valid && v.nliLabel == "contradict" && nli.Answers?
  {
  }

  /** The second selection, by place. */
  lemma CloseStand(items: seq<CitationItem>, index: map<int, string>, sim: Option<seq<seq<real>>>, threshold: real,
                   p: nat)
    requires p < |Survivors1(items, index)|
    ensures var it := Survivors1(items, index)[p];
            if SimUsable(sim, |Survivors1(items, index)|) && !Reaches(sim.value, threshold, p)
            then it in Fallen2(items, index, sim, threshold) else it in Survivors2(items, index, sim, threshold)
  {
    var v1 := Survivors1(items, index);
    if SimUsable(sim, |v1|) {
      var flags := SimFlags(sim.value, |v1|, threshold);
      SelectedAt(v1, flags, flags[p], p);
    }
  }

  lemma CitationIsEntered(items: seq<CitationItem>, index: map<int, string>, chunks: map<string, string>,
                          sim: Option<seq<seq<real>>>, threshold: real, nli: Nli, k: nat)
    requires k < |items|
    ensures CitationMeans(AllItems(items, index, chunks, sim, threshold, nli), items, index, sim, threshold, nli, k)
  {
    var it, p := items[k], Place(items, index, k);
    SurvivorsSize(items, index);
    CheckedStands(items, index, k);
    if Numbered(it, index) {
      CloseStand(items, index, sim, threshold, p);
      if SimUsable(sim, |Survivors1(items, index)|) && !Reaches(sim.value, threshold, p) {
        EnteredAs(Fallen2(items, index, sim, threshold), it, "low_sim");
      } else if !(SimUsable(sim, |Survivors1(items, index)|) && nli.Answers?) {
        KeptAs(Survivors2(items, index, sim, threshold), it);
      }
    } else {
      EnteredAs(Fallen1(items, index), it, "unknown");
    }
  }

  lemma EnteredAs(items: seq<CitationItem>, it: CitationItem, mark: string)
    requires it in items
    ensures VerifyItem(it.refId, it.chunkId, false, mark, Drop) in AllDropped(items, mark)
  {
    var i :| 0 <= i < |items| && items[i] == it;
    assert AllDropped(items, mark)[i] == VerifyItem(it.refId, it.chunkId, false, mark, Drop);
  }

  lemma KeptAs(items: seq<CitationItem>, it: CitationItem)
    requires it in items
    ensures VerifyItem(it.refId, it.chunkId, true, "unknown", Keep) in AllKept(items)
  {
    var i :| 0 <= i < |items| && items[i] == it;
    assert AllKept(items)[i] == VerifyItem(it.refId, it.chunkId, true, "unknown", Keep);
  }

  lemma KeptEntry(items: seq<CitationItem>, index: map<int, string>, chunks: map<string, string>,
                  sim: Option<seq<seq<real>>>, threshold: real, nli: Nli, v: VerifyItem)
    returns (k: nat)
    requires v in AllItems(items, index, chunks, sim, threshold, nli) && v.action.Keep?
    ensures KeptFor(v, items, index, sim, threshold, k)
  {
    var v1, v2 := Survivors1(items, index), Survivors2(items, index, sim, threshold);
    DroppedFit(Fallen1(items, index), "unknown");
    DroppedFit(Fallen2(items, index, sim, threshold), "low_sim");
    var i := FinalEntry(v2, chunks, SimUsable(sim, |v1|), nli, v);
    SurvivorsSize(items, index);
    var p := CloseFrom(items, index, sim, threshold, i);
    k := SurvivorStands(items, index, p);
  }

  /** A kept entry of check 3 stands for a citation that reached it. */
  lemma FinalEntry(v2: seq<CitationItem>, chunks: map<string, string>, simOk: bool, nli: Nli, v: VerifyItem)
    returns (i: nat)
    requires v in FinalItems(v2, chunks, simOk, nli) && v.action.Keep?
    ensures i < |v2| && v.refId == v2[i].refId && v.chunkId == v2[i].chunkId
    ensures v.valid && v.nliLabel in {"unknown", "support", "neutral"}
  {
    var final := FinalItems(v2, chunks, simOk, nli);
    i :| 0 <= i < |final| && final[i] == v;
  }

  /** What check 2 passes stood at a place that reaches the threshold. */
  lemma CloseFrom(items: seq<CitationItem>, index: map<int, string>, sim: Option<seq<seq<real>>>, threshold: real,
                  i: nat)
    returns (p: nat)
    requires i < |Survivors2(items, index, sim, threshold)|
    ensures p < |Survivors1(items, index)| && Survivors1(items, index)[p] == Survivors2(items, index, sim, threshold)[i]
    ensures SimUsable(sim, |Survivors1(items, index)|) ==> Reaches(sim.value, threshold, p)
  {
    var v1 := Survivors1(items, index);
    p := i;
    if SimUsable(sim, |v1|) { p := SelectedFrom(v1, SimFlags(sim.value, |v1|, threshold), true, i); }
  }

  /** The dropped references are those of the dropped entries. */
  lemma {:induction false} ListedDrops(entries: seq<VerifyItem>)
    ensures forall n :: n in RefsOfDrops(entries) <==> exists v :: v in entries && v.action.Drop? && v.refId == n
    decreases |entries|
  {
    if entries != [] {
      var n := |entries| - 1;
      ListedDrops(entries[..n]);
      assert entries == entries[..n] + [entries[n]];
    }
  }

  lemma RefsOfThree(a: seq<VerifyItem>, b: seq<VerifyItem>, c: seq<VerifyItem>)
    ensures RefsOfDrops(a + b + c) == RefsOfDrops(a) + RefsOfDrops(b) + RefsOfDrops(c)
  {
    RefsOfConcat(a, b);
    RefsOfConcat(a + b, c);
  }

  lemma NoSurvivors(items: seq<CitationItem>, index: map<int, string>, chunks: map<string, string>,
                    sim: Option<seq<seq<real>>>, threshold: real, nli: Nli)
    requires Survivors1(items, index) == []
    ensures Survivors2(items, index, sim, threshold) == []
    ensures AllItems(items, index, chunks, sim, threshold, nli) == AllDropped(Fallen1(items, index), "unknown")
    ensures NothingKept(AllItems(items, index, chunks, sim, threshold, nli))
  {
    DroppedFit(Fallen1(items, index), "unknown");
    assert Fallen2(items, index, sim, threshold) == [];
  }

  /** Check 2: a failure of the embeddings drops nothing. */
  method Check2(items: seq<CitationItem>, index: map<int, string>, v1: seq<CitationItem>,
                sim: Option<seq<seq<real>>>, threshold: real)
    returns (valid: seq<CitationItem>, low: seq<VerifyItem>)
    requires v1 == Survivors1(items, index)
    ensures valid == Survivors2(items, index, sim, threshold)
    ensures low == AllDropped(Fallen2(items, index, sim, threshold), "low_sim")
  {
    valid, low := v1, [];
    if SimUsable(sim, |v1|) {
      valid := [];
      var flags := SimFlags(sim.value, |v1|, threshold);
      for n := 0 to |v1|
        invariant valid == Select(v1[..n], flags[..n], true)
        invariant low == AllDropped(Select(v1[..n], flags[..n], false), "low_sim")
      {
        assert v1[..n + 1][..n] == v1[..n] && flags[..n + 1][..n] == flags[..n];
        if flags[n] { valid := valid + [v1[n]]; } else { low := low + [Dropped(v1[n], "low_sim")]; }
      }
      assert v1[..|v1|] == v1 && flags[..|v1|] == flags;
    }
  }

  /** Check 1: references outside the index are dropped. */
  method Check1(items: seq<CitationItem>, index: map<int, string>)
    returns (valid: seq<CitationItem>, out: seq<VerifyItem>)
    ensures valid == Survivors1(items, index)
    ensures out == AllDropped(Fallen1(items, index), "unknown")
    ensures forall it :: it in valid <==> it in items && it.refId in index && index[it.refId] != ""
  {
    valid, out := [], [];
    var flags := LegalFlags(items, index);
    for n := 0 to |items|
      invariant valid == Select(items[..n], flags[..n], true)
      invariant out == AllDropped(Select(items[..n], flags[..n], false), "unknown")
    {
      assert items[..n + 1][..n] == items[..n] && flags[..n + 1][..n] == flags[..n];
      if Legal(items[n], index) {
        valid := valid + [items[n]];
      } else {
        out := out + [Dropped(items[n], "unknown")];
      }
    }
    assert items[..|items|] == items && flags[..|items|] == flags;
    SurvivorsAreNumbered(items, index);
  }

  lemma {:induction false} RefsOfConcat(a: seq<VerifyItem>, b: seq<VerifyItem>)
    ensures RefsOfDrops(a + b) == RefsOfDrops(a) + RefsOfDrops(b)
    decreases |b|
  {
    if b == [] {
      assert a + b == a;
    } else {
      var n := |b| - 1;
      assert (a + b)[..|a + b| - 1] == a + b[..n] && (a + b)[|a + b| - 1] == b[n];
      RefsOfConcat(a, b[..n]);
    }
  }

  // ---- Conservation ---------------------------------------------------------------------------

  /** The (reference, chunk) pairs of citations, and of entries. */
  function Pairs(items: seq<CitationItem>): (r: seq<(int, string)>)
    ensures |r| == |items| && forall i :: 0 <= i < |r| ==> r[i] == (items[i].refId, items[i].chunkId)
  {
    seq(|items|, i requires 0 <= i < |items| => (items[i].refId, items[i].chunkId))
  }

  function EntryPairs(items: seq<VerifyItem>): (r: seq<(int, string)>)
    ensures |r| == |items| && forall i :: 0 <= i < |r| ==> r[i] == (items[i].refId, items[i].chunkId)
  {
    seq(|items|, i requires 0 <= i < |items| => (items[i].refId, items[i].chunkId))
  }

  /** The kept entries, in order. */
  function KeptOf(items: seq<VerifyItem>): seq<VerifyItem> {
    if items == [] then []
    else
      var n := |items| - 1;
      KeptOf(items[..n]) + if items[n].action.Keep? then [items[n]] else []
  }

  lemma {:induction false} KeptOfConcat(a: seq<VerifyItem>, b: seq<VerifyItem>)
    ensures KeptOf(a + b) == KeptOf(a) + KeptOf(b)
    decreases |b|
  {
    if b == [] {
      assert a + b == a;
    } else {
      var n := |b| - 1;
      assert (a + b)[..|a + b| - 1] == a + b[..n] && (a + b)[|a + b| - 1] == b[n];
      KeptOfConcat(a, b[..n]);
    }
  }

  lemma {:induction false} KeptOfDropped(items: seq<VerifyItem>)
    requires NothingKept(items)
    ensures KeptOf(items) == []
  {
    if items != [] { KeptOfDropped(items[..|items| - 1]); }
  }

  lemma {:induction false} KeptOfKept(items: seq<VerifyItem>)
    requires forall i :: 0 <= i < |items| ==> items[i].action.Keep?
    ensures KeptOf(items) == items
  {
    if items != [] {
      KeptOfKept(items[..|items| - 1]);
      assert items == items[..|items| - 1] + [items[|items| - 1]];
    }
  }

  lemma {:induction false} KeptAmongEntries(items: seq<VerifyItem>)
    ensures multiset(EntryPairs(KeptOf(items))) <= multiset(EntryPairs(items))
  {
    if items != [] {
      var n := |items| - 1;
      KeptAmongEntries(items[..n]);
      var init, kept := EntryPairs(items[..n]), EntryPairs(KeptOf(items[..n]));
      var last := [(items[n].refId, items[n].chunkId)];
      assert EntryPairs(items) == init + last;
      assert multiset(init + last) == multiset(init) + multiset(last);
      if items[n].action.Keep? {
        assert EntryPairs(KeptOf(items)) == kept + last;
        assert multiset(kept + last) == multiset(kept) + multiset(last);
      } else {
        assert KeptOf(items) == KeptOf(items[..n]);
      }
    }
  }

  lemma {:induction false} SelectOfPairs(items: seq<CitationItem>, keep: seq<bool>, wanted: bool)
    requires |items| == |keep|
    ensures Pairs(Select(items, keep, wanted)) == Select(Pairs(items), keep, wanted)
  {
    if items != [] {
      var n := |items| - 1;
      SelectOfPairs(items[..n], keep[..n], wanted);
      assert Pairs(items)[..n] == Pairs(items[..n]);
    }
  }

  ghost predicate Splits<T>(items: seq<T>, yes: seq<T>, no: seq<T>) {
    multiset(items) == multiset(yes) + multiset(no)
  }

  lemma SplitsFurther<T>(items: seq<T>, yes: seq<T>, no: seq<T>, x: T)
    requires Splits(items, yes, no)
    ensures Splits(items + [x], yes + [x], no) && Splits(items + [x], yes, no + [x])
  {
  }

  lemma {:induction false} SelectSplits<T>(items: seq<T>, keep: seq<bool>)
    requires |items| == |keep|
    ensures Splits(items, Select(items, keep, true), Select(items, keep, false))
  {
    if items != [] {
      var n := |items| - 1;
      var yes, no := Select(items[..n], keep[..n], true), Select(items[..n], keep[..n], false);
      SelectSplits(items[..n], keep[..n]);
      SplitsFurther(items[..n], yes, no, items[n]);
      assert items == items[..n] + [items[n]];
      assert yes + [] == yes && no + [] == no;
    }
  }

  lemma PairsSplit(items: seq<CitationItem>, keep: seq<bool>)
    requires |items| == |keep|
    ensures multiset(Pairs(items))
         == multiset(Pairs(Select(items, keep, true))) + multiset(Pairs(Select(items, keep, false)))
  {
    SelectOfPairs(items, keep, true);
    SelectOfPairs(items, keep, false);
    SelectSplits(Pairs(items), keep);
  }

  /** Checks 1 and 2 split the citations into survivors and fallen ones. */
  lemma ChecksSplit(items: seq<CitationItem>, index: map<int, string>, sim: Option<seq<seq<real>>>, threshold: real)
    ensures multiset(Pairs(items)) == multiset(Pairs(Fallen1(items, index)))
              + multiset(Pairs(Fallen2(items, index, sim, threshold)))
              + multiset(Pairs(Survivors2(items, index, sim, threshold)))
  {
    PairsSplit(items, LegalFlags(items, index));
    var v1 := Survivors1(items, index);
    if SimUsable(sim, |v1|) { PairsSplit(v1, SimFlags(sim.value, |v1|, threshold)); }
  }

  ghost predicate SentencesNonBlank(items: seq<CitationItem>) {
    forall i :: 0 <= i < |items| ==> Strip(items[i].sentence) != ""
  }

  /** Check 3 labels the citations that reach it. */
  ghost predicate Labelled(v2: seq<CitationItem>, simOk: bool, nli: Nli) { v2 != [] && simOk && nli.Answers? }

  lemma TextsNonBlank(v2: seq<CitationItem>)
    ensures |NonBlank(SentencesOf(v2))| == |v2| <==> SentencesNonBlank(v2)
    ensures |NonBlank(SentencesOf(v2))| <= |v2|
  {
    var texts := SentencesOf(v2);
    NonBlankSize(texts);
    if SentencesNonBlank(v2) {
      forall t | t in texts ensures Strip(t) != "" {
        var i :| 0 <= i < |texts| && texts[i] == t;
      }
    } else {
      var i :| 0 <= i < |v2| && Strip(v2[i].sentence) == "";
      assert texts[i] in texts;
    }
  }

  lemma FinalItemsFit(v2: seq<CitationItem>, chunks: map<string, string>, simOk: bool, nli: Nli)
    ensures var f := FinalItems(v2, chunks, simOk, nli);
            && |f| <= |v2| && EntryPairs(f) == Pairs(v2)[..|f|]
            && (|f| == |v2| <==> (Labelled(v2, simOk, nli) ==> SentencesNonBlank(v2)))
            && (!Labelled(v2, simOk, nli) ==> f == AllKept(v2))
  {
    TextsNonBlank(v2);
    if Labelled(v2, simOk, nli) {
      VerdictsFit(v2, VerifyClaims(SentencesOf(v2), Sources(v2, chunks), nli.reply));
    } else {
      KeptFit(v2);
    }
  }

  lemma VerdictsFit(items: seq<CitationItem>, labels: seq<string>)
    requires |labels| <= |items|
    ensures EntryPairs(Verdicts(items, labels)) == Pairs(items)[..|labels|]
  {
  }

  lemma KeptFit(items: seq<CitationItem>)
    ensures EntryPairs(AllKept(items)) == Pairs(items)[..|items|]
  {
  }

  lemma DroppedFit(items: seq<CitationItem>, mark: string)
    ensures EntryPairs(AllDropped(items, mark)) == Pairs(items) && NothingKept(AllDropped(items, mark))
  {
  }

  /** Every citation gets exactly one entry, kept or dropped, with its own reference and chunk,
      exactly when check 3 does not label a citation with a blank sentence: those are skipped by
      the labelling, and pairing labels with citations then loses entries at the end. */
  lemma EveryCitationAccountedIff(items: seq<CitationItem>, index: map<int, string>, chunks: map<string, string>,
                                  sim: Option<seq<seq<real>>>, threshold: real, nli: Nli)
    ensures multiset(EntryPairs(AllItems(items, index, chunks, sim, threshold, nli))) == multiset(Pairs(items))
       <==> (Labelled(Survivors2(items, index, sim, threshold), SimUsable(sim, |Survivors1(items, index)|), nli) ==>
               SentencesNonBlank(Survivors2(items, index, sim, threshold)))
  {
    var v2 := Survivors2(items, index, sim, threshold);
    var simOk := SimUsable(sim, |Survivors1(items, index)|);
    var fallen1, fallen2 := Fallen1(items, index), Fallen2(items, index, sim, threshold);
    ChecksSplit(items, index, sim, threshold);
    FinalItemsFit(v2, chunks, simOk, nli);
    DroppedFit(fallen1, "unknown");
    DroppedFit(fallen2, "low_sim");
    CountEntries(AllDropped(fallen1, "unknown"), AllDropped(fallen2, "low_sim"), FinalItems(v2, chunks, simOk, nli),
                 Pairs(fallen1), Pairs(fallen2), Pairs(v2));
  }

  /** The loss happens: a single legal citation with a blank sentence gets no entry at all. */
  lemma BlankCitationIsLost(it: CitationItem, index: map<int, string>, chunks: map<string, string>, reply: Reply)
    requires Legal(it, index) && Strip(it.sentence) == ""
    ensures AllItems([it], index, chunks, Some([[1.0]]), 0.5, Answers(reply)) == []
  {
    LegalSurvives(it, index);
    SimilarSurvives(it, index);
    BlankGetsNoLabel(it, chunks, reply);
  }

  lemma LegalSurvives(it: CitationItem, index: map<int, string>)
    requires Legal(it, index)
    ensures Survivors1([it], index) == [it] && Fallen1([it], index) == []
  {
    SelectSingle(it, LegalFlags([it], index));
  }

  lemma SimilarSurvives(it: CitationItem, index: map<int, string>)
    requires Survivors1([it], index) == [it]
    ensures Survivors2([it], index, Some([[1.0]]), 0.5) == [it] && Fallen2([it], index, Some([[1.0]]), 0.5) == []
    ensures SimUsable(Some([[1.0]]), 1)
  {
    assert SimUsable(Some([[1.0]]), 1);
    SelectSingle(it, SimFlags([[1.0]], 1, 0.5));
  }

  lemma BlankGetsNoLabel(it: CitationItem, chunks: map<string, string>, reply: Reply)
    requires Strip(it.sentence) == ""
    ensures FinalItems([it], chunks, true, Answers(reply)) == []
  {
    var texts := SentencesOf([it]);
    assert texts == [it.sentence] && NonBlank(texts[1..]) == [] && NonBlank(texts) == [];
  }

  lemma SelectSingle<T>(x: T, keep: seq<bool>)
    requires |keep| == 1
    ensures Select([x], keep, true) == (if keep[0] then [x] else [])
    ensures Select([x], keep, false) == (if keep[0] then [] else [x])
  {
    assert [x][..0] == [] && keep[..0] == [];
  }

  lemma CountEntries(d1: seq<VerifyItem>, d2: seq<VerifyItem>, f: seq<VerifyItem>,
                     p1: seq<(int, string)>, p2: seq<(int, string)>, p3: seq<(int, string)>)
    requires EntryPairs(d1) == p1 && EntryPairs(d2) == p2 && |f| <= |p3| && EntryPairs(f) == p3[..|f|]
    ensures multiset(EntryPairs(d1 + d2 + f)) == multiset(p1) + multiset(p2) + multiset(p3) <==> |f| == |p3|
  {
    assert EntryPairs(d1 + d2 + f) == p1 + p2 + p3[..|f|];
    var rest := multiset(p1) + multiset(p2);
    if |f| == |p3| {
      assert p3[..|f|] == p3;
    } else {
      assert |rest + multiset(p3[..|f|])| < |rest + multiset(p3)|;
    }
  }

  /** What is kept passed checks 1 and 2, whatever check 3 does; and check 3 keeps all of it, in
      order, when it is off, times out, fails, or has to be skipped. */
  lemma KeptPassedTwoChecks(items: seq<CitationItem>, index: map<int, string>, chunks: map<string, string>,
                            sim: Option<seq<seq<real>>>, threshold: real, nli: Nli)
    ensures multiset(EntryPairs(KeptOf(AllItems(items, index, chunks, sim, threshold, nli))))
         <= multiset(Pairs(Survivors2(items, index, sim, threshold)))
    ensures !Labelled(Survivors2(items, index, sim, threshold), SimUsable(sim, |Survivors1(items, index)|), nli) ==>
              EntryPairs(KeptOf(AllItems(items, index, chunks, sim, threshold, nli)))
              == Pairs(Survivors2(items, index, sim, threshold))
  {
    var v2 := Survivors2(items, index, sim, threshold);
    var simOk := SimUsable(sim, |Survivors1(items, index)|);
    var f := FinalItems(v2, chunks, simOk, nli);
    var d1 := AllDropped(Fallen1(items, index), "unknown");
    var d2 := AllDropped(Fallen2(items, index, sim, threshold), "low_sim");
    DroppedFit(Fallen1(items, index), "unknown");
    DroppedFit(Fallen2(items, index, sim, threshold), "low_sim");
    OnlyLastKept(d1, d2, f);
    FinalItemsFit(v2, chunks, simOk, nli);
    KeptAmongPrefix(f, Pairs(v2));
    if !Labelled(v2, simOk, nli) { KeptOfKept(f); }
  }

  lemma OnlyLastKept(d1: seq<VerifyItem>, d2: seq<VerifyItem>, f: seq<VerifyItem>)
    requires NothingKept(d1) && NothingKept(d2)
    ensures KeptOf(d1 + d2 + f) == KeptOf(f)
  {
    KeptOfDropped(d1);
    KeptOfDropped(d2);
    KeptOfConcat(d1, d2);
    KeptOfConcat(d1 + d2, f);
  }

  lemma KeptAmongPrefix(f: seq<VerifyItem>, pairs: seq<(int, string)>)
    requires |f| <= |pairs| && EntryPairs(f) == pairs[..|f|]
    ensures multiset(EntryPairs(KeptOf(f))) <= multiset(pairs)
  {
    KeptAmongEntries(f);
    PrefixAmong(pairs, |f|);
  }

  lemma PrefixAmong(pairs: seq<(int, string)>, n: nat)
    requires n <= |pairs|
    ensures multiset(pairs[..n]) <= multiset(pairs)
  {
    assert pairs == pairs[..n] + pairs[n..];
  }

  /** Switching check 3 on never keeps more than switching it off. */
  lemma NliKeepsNoMore(items: seq<CitationItem>, index: map<int, string>, chunks: map<string, string>,
                       sim: Option<seq<seq<real>>>, threshold: real, nli: Nli)
    ensures multiset(EntryPairs(KeptOf(AllItems(items, index, chunks, sim, threshold, nli))))
         <= multiset(EntryPairs(KeptOf(AllItems(items, index, chunks, sim, threshold, Off))))
  {
    KeptPassedTwoChecks(items, index, chunks, sim, threshold, nli);
    KeptPassedTwoChecks(items, index, chunks, sim, threshold, Off);
  }

  /** With non-blank sentences each citation is judged by the label of its own sentence. */
  lemma LabelsMeetTheirSentences(v2: seq<CitationItem>, chunks: map<string, string>, reply: Reply, i: nat)
    requires SentencesNonBlank(v2) && i < |v2|
    ensures var f := FinalItems(v2, chunks, true, Answers(reply));
            var mark := if NonBlank(Sources(v2, chunks)) == [] then NEUTRAL else LabelOf(reply, Strip(v2[i].sentence));
            && i < |f| && f[i].refId == v2[i].refId && f[i].chunkId == v2[i].chunkId && f[i].nliLabel == mark
            && (f[i].action.Drop? <==> mark == "contradict") && (f[i].valid <==> mark != "contradict")
  {
    NonBlankInPlace(v2, i);
    var labels := VerifyClaims(SentencesOf(v2), Sources(v2, chunks), reply);
    assert FinalItems(v2, chunks, true, Answers(reply)) == Verdicts(v2, labels);
    assert Verdicts(v2, labels)[i] == Judged(v2[i], labels[i]);
  }

  lemma NonBlankInPlace(v2: seq<CitationItem>, i: nat)
    requires SentencesNonBlank(v2) && i < |v2|
    ensures var claims := NonBlank(SentencesOf(v2)); |claims| == |v2| && claims[i] == Strip(v2[i].sentence)
  {
    var texts := SentencesOf(v2);
    NonBlankSize(texts);
    forall t | t in texts ensures Strip(t) != "" {
      var k :| 0 <= k < |texts| && texts[k] == t;
    }
  }
}
