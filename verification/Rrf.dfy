/** Weighted reciprocal rank fusion (rrf.py); scores are reals. */
module Rrf {
  import opened Prelude

  /** A hit is its key and whatever else it carries. */
  datatype Hit = Hit(key: string, payload: string)

  datatype Fused = Fused(hit: Hit, score: real)

  /** `k + rank + 1` never vanishes on this list. */
  predicate Divisible(list: seq<Hit>, k: int) { k >= 0 || |list| <= -k - 1 }

  function Term(w: real, k: int, rank: nat): real
    requires k + rank + 1 != 0
  {
    w / (k + rank + 1) as real
  }

  /** The sum of w / (k + rank + 1) over the ranks at which the key occurs in the list. */
  function ListScore(list: seq<Hit>, w: real, k: int, key: string): real
    requires Divisible(list, k)
  {
    if list == [] then 0.0
    else
      var n := |list| - 1;
      ListScore(list[..n], w, k, key) + if list[n].key == key then Term(w, k, n) else 0.0
  }

  /** The sum over all lists. */
  function Score(lists: seq<seq<Hit>>, weights: seq<real>, k: int, key: string): real
    requires |lists| == |weights| && forall i :: 0 <= i < |lists| ==> Divisible(lists[i], k)
  {
    if lists == [] then 0.0
    else
      var n := |lists| - 1;
      Score(lists[..n], weights[..n], k, key) + ListScore(lists[n], weights[n], k, key)
  }

  /** The sum of 1 / (k + rank + 1) over the ranks of the key in one list, and over all lists. */
  function PlainSum(list: seq<Hit>, k: int, key: string): real
    requires Divisible(list, k)
  {
    if list == [] then 0.0
    else
      var n := |list| - 1;
      PlainSum(list[..n], k, key) + if list[n].key == key then 1.0 / (k + n + 1) as real else 0.0
  }

  function PlainScore(lists: seq<seq<Hit>>, k: int, key: string): real
    requires forall i :: 0 <= i < |lists| ==> Divisible(lists[i], k)
  {
    if lists == [] then 0.0 else PlainScore(lists[..|lists| - 1], k, key) + PlainSum(lists[|lists| - 1], k, key)
  }

  lemma {:induction false} PlainIsWeightOne(list: seq<Hit>, k: int, key: string)
    requires Divisible(list, k)
    ensures ListScore(list, 1.0, k, key) == PlainSum(list, k, key)
  {
    if list != [] { PlainIsWeightOne(list[..|list| - 1], k, key); }
  }

  /** Without weights a key scores the plain sum, and a weight scales what its list contributes. */
  lemma {:induction false} UnweightedScore(lists: seq<seq<Hit>>, ws: seq<real>, k: int, key: string)
    requires |lists| == |ws| && (forall i :: 0 <= i < |lists| ==> Divisible(lists[i], k))
    requires forall i :: 0 <= i < |ws| ==> ws[i] == 1.0
    ensures Score(lists, ws, k, key) == PlainScore(lists, k, key)
  {
    if lists != [] {
      var n := |lists| - 1;
      UnweightedScore(lists[..n], ws[..n], k, key);
      PlainIsWeightOne(lists[n], k, key);
    }
  }

  lemma {:induction false} WeightScales(list: seq<Hit>, w: real, k: int, key: string)
    requires Divisible(list, k)
    ensures ListScore(list, w, k, key) == w * PlainSum(list, k, key)
  {
    if list != [] {
      var n := |list| - 1;
      WeightScales(list[..n], w, k, key);
      if list[n].key == key { Scale(w, (k + n + 1) as real); }
    }
  }

  lemma Scale(w: real, d: real)
    requires d != 0.0
    ensures w / d == w * (1.0 / d)
  {
  }

  predicate Occurs(list: seq<Hit>, key: string) { exists r :: 0 <= r < |list| && list[r].key == key }

  predicate OccursIn(lists: seq<seq<Hit>>, key: string) { exists i :: 0 <= i < |lists| && Occurs(lists[i], key) }

  /** A dictionary entry with its insertion position, which decides ties in the stable sort. */
  datatype Item = Item(key: string, score: real, position: nat)

  predicate NotAfter(a: Item, b: Item) { a.score > b.score || (a.score == b.score && a.position <= b.position) }

  ghost predicate Ranked(items: seq<Item>) { forall i, j :: 0 <= i < j < |items| ==> NotAfter(items[i], items[j]) }

  function InsertItem(x: Item, items: seq<Item>): (r: seq<Item>)
    ensures multiset(r) == multiset(items) + multiset{x}
  {
    if items == [] then [x]
    else if NotAfter(x, items[0]) then [x] + items
    else
      assert items == [items[0]] + items[1..];
      [items[0]] + InsertItem(x, items[1..])
  }

  /** `sorted(items, key=-score)`. */
  function SortItems(items: seq<Item>): (r: seq<Item>)
    ensures multiset(r) == multiset(items)
  {
    if items == [] then []
    else
      assert items == [items[0]] + items[1..];
      InsertItem(items[0], SortItems(items[1..]))
  }

  lemma {:induction false} InsertRanks(x: Item, items: seq<Item>)
    requires Ranked(items)
    ensures Ranked(InsertItem(x, items))
  {
    if items != [] && !NotAfter(x, items[0]) {
      InsertRanks(x, items[1..]);
      var tail := InsertItem(x, items[1..]);
      forall y | y in tail ensures NotAfter(items[0], y) {
        assert y in multiset(tail);
        assert y == x || y in items[1..];
      }
    }
  }

  lemma {:induction false} SortRanks(items: seq<Item>)
    ensures Ranked(SortItems(items))
  {
    if items != [] {
      SortRanks(items[1..]);
      InsertRanks(items[0], SortItems(items[1..]));
    }
  }

  function Round4(x: real): real { RoundTo(x, 10000) }

  lemma Round4Monotone(x: real, y: real)
    requires x <= y
    ensures Round4(x) <= Round4(y)
  {
    RoundHalfEvenMonotone(x * 10000.0, y * 10000.0);
  }

  /** The scores dictionary with its insertion order, and the first hit of each key. */
  datatype Table = Table(keys: seq<string>, scores: map<string, real>, hits: map<string, Hit>)

  function Get(scores: map<string, real>, key: string): real { if key in scores then scores[key] else 0.0 }

  ghost predicate TableOk(t: Table) {
    && (forall key :: key in t.keys <==> key in t.scores)
    && (forall i, j :: 0 <= i < j < |t.keys| ==> t.keys[i] != t.keys[j])
    && t.hits.Keys == t.scores.Keys
    && (forall key :: key in t.hits ==> t.hits[key].key == key)
  }

  /** One dictionary update: the score grows, the first hit of a key is kept. */
  function Bump(t: Table, h: Hit, amount: real): Table {
    Table(if h.key in t.scores then t.keys else t.keys + [h.key],
          t.scores[h.key := Get(t.scores, h.key) + amount],
          if h.key in t.hits then t.hits else t.hits[h.key := h])
  }

  function Added(t: Table, list: seq<Hit>, w: real, k: int): Table
    requires Divisible(list, k)
  {
    if list == [] then t
    else
      var n := |list| - 1;
      Bump(Added(t, list[..n], w, k), list[n], Term(w, k, n))
  }

  function AddedAll(lists: seq<seq<Hit>>, ws: seq<real>, k: int): Table
    requires |lists| == |ws| && forall i :: 0 <= i < |lists| ==> Divisible(lists[i], k)
  {
    if lists == [] then Table([], map[], map[])
    else
      var n := |lists| - 1;
      Added(AddedAll(lists[..n], ws[..n], k), lists[n], ws[n], k)
  }

  lemma BumpKeeps(t: Table, h: Hit, amount: real)
    requires TableOk(t)
    ensures TableOk(Bump(t, h, amount))
  {
    var u := Bump(t, h, amount);
    if h.key !in t.scores {
      assert forall i :: 0 <= i < |t.keys| ==> t.keys[i] in t.keys;
      assert u.keys[|t.keys|] == h.key;
    }
  }

  lemma {:induction false} AddedIs(t: Table, list: seq<Hit>, w: real, k: int, key: string)
    requires TableOk(t) && Divisible(list, k)
    ensures TableOk(Added(t, list, w, k))
    ensures key in Added(t, list, w, k).scores <==> key in t.scores || Occurs(list, key)
    ensures Get(Added(t, list, w, k).scores, key) == Get(t.scores, key) + ListScore(list, w, k, key)
  {
    if list != [] {
      var n := |list| - 1;
      AddedIs(t, list[..n], w, k, key);
      BumpKeeps(Added(t, list[..n], w, k), list[n], Term(w, k, n));
      OccursPrefix(list, key);
    }
  }

  /** `h` is the hit at the first rank where the key occurs in the list. */
  ghost predicate FirstInList(list: seq<Hit>, key: string, h: Hit) {
    exists r :: 0 <= r < |list| && list[r] == h && h.key == key && !Occurs(list[..r], key)
  }

  /** `h` is the key's first hit in the first list that has the key. */
  ghost predicate FirstHit(lists: seq<seq<Hit>>, key: string, h: Hit) {
    exists i :: 0 <= i < |lists| && FirstInList(lists[i], key, h) && !OccursIn(lists[..i], key)
  }

  lemma {:induction false} AddedKeepsFirst(t: Table, list: seq<Hit>, w: real, k: int, key: string)
    requires TableOk(t) && Divisible(list, k)
    ensures var u := Added(t, list, w, k);
            && TableOk(u)
            && (key in t.hits ==> key in u.hits && u.hits[key] == t.hits[key])
            && (key !in t.hits && Occurs(list, key) ==> key in u.hits && FirstInList(list, key, u.hits[key]))
  {
    AddedIs(t, list, w, k, key);
    if list != [] {
      var n := |list| - 1;
      AddedKeepsFirst(t, list[..n], w, k, key);
      AddedIs(t, list[..n], w, k, key);
      var before := Added(t, list[..n], w, k);
      if key !in t.hits && Occurs(list, key) {
        OccursPrefix(list, key);
        if Occurs(list[..n], key) { FirstStaysFirst(list, key, before.hits[key]); }
      }
    }
  }

  lemma FirstStaysFirst(list: seq<Hit>, key: string, h: Hit)
    requires list != [] && FirstInList(list[..|list| - 1], key, h)
    ensures FirstInList(list, key, h)
  {
    var init := list[..|list| - 1];
    var r :| 0 <= r < |init| && init[r] == h && h.key == key && !Occurs(init[..r], key);
    assert list[..r] == init[..r] && list[r] == h;
  }

  /** The metadata shown for a key is that of its first occurrence. */
  lemma {:induction false} FirstHitIsKept(lists: seq<seq<Hit>>, ws: seq<real>, k: int, key: string)
    requires |lists| == |ws| && AllDivisible(lists, k) && OccursIn(lists, key)
    ensures key in AddedAll(lists, ws, k).hits && FirstHit(lists, key, AddedAll(lists, ws, k).hits[key])
    decreases |lists|
  {
    var n := |lists| - 1;
    assert lists[..n + 1] == lists;
    OccursMore(lists, n, key);
    var before := AddedAll(lists[..n], ws[..n], k);
    LoopsComputeTheSum(lists[..n], ws[..n], k, key);
    AddedKeepsFirst(before, lists[n], ws[n], k, key);
    if OccursIn(lists[..n], key) {
      FirstHitIsKept(lists[..n], ws[..n], k, key);
      var i :| 0 <= i < n && FirstInList(lists[..n][i], key, before.hits[key]) && !OccursIn(lists[..n][..i], key);
      assert lists[..i] == lists[..n][..i] && lists[i] == lists[..n][i];
    }
  }

  lemma OccursPrefix(list: seq<Hit>, key: string)
    requires list != []
    ensures Occurs(list, key) <==> Occurs(list[..|list| - 1], key) || list[|list| - 1].key == key
  {
    if Occurs(list[..|list| - 1], key) {
      var r :| 0 <= r < |list| - 1 && list[..|list| - 1][r].key == key;
      assert list[r].key == key;
    }
    if Occurs(list, key) {
      var r :| 0 <= r < |list| && list[r].key == key;
      assert r < |list| - 1 ==> list[..|list| - 1][r].key == key;
    }
  }

  /** What the dictionary loops compute: the keys of the input, each with the closed-form sum. */
  lemma {:induction false} LoopsComputeTheSum(lists: seq<seq<Hit>>, ws: seq<real>, k: int, key: string)
    requires |lists| == |ws| && forall i :: 0 <= i < |lists| ==> Divisible(lists[i], k)
    ensures TableOk(AddedAll(lists, ws, k))
    ensures key in AddedAll(lists, ws, k).scores <==> OccursIn(lists, key)
    ensures Get(AddedAll(lists, ws, k).scores, key) == Score(lists, ws, k, key)
  {
    if lists != [] {
      var n := |lists| - 1;
      LoopsComputeTheSum(lists[..n], ws[..n], k, key);
      AddedIs(AddedAll(lists[..n], ws[..n], k), lists[n], ws[n], k, key);
      assert lists[..n + 1] == lists;
      OccursMore(lists, n, key);
    }
  }

  /** The number of list and weight pairs that `zip` yields. */
  function Zipped(lists: seq<seq<Hit>>, weights: Option<seq<real>>): nat {
    if weights.Some? then Min(|weights.value|, |lists|) else |lists|
  }

  function Weights(lists: seq<seq<Hit>>, weights: Option<seq<real>>): (ws: seq<real>)
    ensures |ws| == Zipped(lists, weights)
  {
    if weights.Some? then weights.value[..Zipped(lists, weights)] else seq(|lists|, _ => 1.0)
  }

  predicate AllDivisible(lists: seq<seq<Hit>>, k: int) { forall i :: 0 <= i < |lists| ==> Divisible(lists[i], k) }

  /** Every key of the input once, with its closed-form score, best first. */
  ghost predicate IsFusion(lists: seq<seq<Hit>>, ws: seq<real>, k: int, ranked: seq<Item>)
    requires |lists| == |ws| && AllDivisible(lists, k)
  {
    && (forall key :: OccursIn(lists, key) <==> HasKey(ranked, key))
    && (forall i, j :: 0 <= i < j < |ranked| ==> ranked[i].key != ranked[j].key)
    && (forall i :: 0 <= i < |ranked| ==> ranked[i].score == Score(lists, ws, k, ranked[i].key))
    && Ranked(ranked)
  }

  predicate HasKey(ranked: seq<Item>, key: string) { exists i :: 0 <= i < |ranked| && ranked[i].key == key }

  /** The output shows the ranked items in order, their scores rounded. */
  ghost predicate Shows(out: seq<Fused>, ranked: seq<Item>) {
    && |out| == |ranked|
    && forall i :: 0 <= i < |out| ==> out[i].hit.key == ranked[i].key && out[i].score == Round4(ranked[i].score)
  }

  method Fuse(lists: seq<seq<Hit>>, k: int, weights: Option<seq<real>>)
    returns (result: Result<seq<Fused>>, ghost ranked: seq<Item>)
    ensures result.Ok? <==> AllDivisible(lists[..Zipped(lists, weights)], k)
    ensures result.Ok? ==> IsFusion(lists[..Zipped(lists, weights)], Weights(lists, weights), k, ranked)
    ensures result.Ok? ==> Shows(result.value, ranked)
    ensures result.Ok? && weights.None? ==> forall i :: 0 <= i < |ranked| ==>
              AllDivisible(lists, k) && ranked[i].score == PlainScore(lists, k, ranked[i].key)
    ensures result.Ok? ==> forall i :: 0 <= i < |result.value| ==>
              FirstHit(lists[..Zipped(lists, weights)], ranked[i].key, result.value[i].hit)
    ensures result.Ok? ==> forall i, j :: 0 <= i < j < |result.value| ==> result.value[i].score >= result.value[j].score
  {
    ranked := [];
    var used, ws := lists[..Zipped(lists, weights)], Weights(lists, weights);
    var table := Accumulate(used, ws, k);
    if table.Raise? { return Raise(table.error), []; }
    var t := table.value;
    LoopsComputeTheSum(used, ws, k, "");
    var sorted := SortItems(Entries(t));
    ranked := sorted;
    SortedTableIsFusion(used, ws, k);
    var out := Render(t, sorted);
    ShownInOrder(out, ranked);
    forall i | 0 <= i < |out| ensures FirstHit(used, ranked[i].key, out[i].hit) {
      assert HasKey(ranked, ranked[i].key);
      FirstHitIsKept(used, ws, k, ranked[i].key);
    }
    if weights.None? {
      assert used == lists;
      forall i | 0 <= i < |ranked| ensures ranked[i].score == PlainScore(lists, k, ranked[i].key) {
        UnweightedScore(lists, ws, k, ranked[i].key);
      }
    }
    result := Ok(out);
  }

  lemma SortedTableIsFusion(lists: seq<seq<Hit>>, ws: seq<real>, k: int)
    requires |lists| == |ws| && AllDivisible(lists, k)
    ensures var t := AddedAll(lists, ws, k);
            && TableOk(t) && IsFusion(lists, ws, k, SortItems(Entries(t)))
            && forall x :: x in SortItems(Entries(t)) ==> x.key in t.hits
  {
    var t := AddedAll(lists, ws, k);
    LoopsComputeTheSum(lists, ws, k, "");
    var ranked := SortItems(Entries(t));
    SortRanks(Entries(t));
    RankedKeys(Entries(t), ranked, t);
    forall key ensures key in t.scores <==> OccursIn(lists, key) { LoopsComputeTheSum(lists, ws, k, key); }
    forall i | 0 <= i < |ranked| ensures ranked[i].score == Score(lists, ws, k, ranked[i].key) {
      LoopsComputeTheSum(lists, ws, k, ranked[i].key);
    }
  }

  function Entries(t: Table): (items: seq<Item>)
    requires TableOk(t)
    ensures |items| == |t.keys| && forall i :: 0 <= i < |items| ==> items[i] == Item(t.keys[i], t.scores[t.keys[i]], i)
  {
    assert forall i :: 0 <= i < |t.keys| ==> t.keys[i] in t.keys;
    seq(|t.keys|, i requires 0 <= i < |t.keys| && t.keys[i] in t.scores => Item(t.keys[i], t.scores[t.keys[i]], i))
  }

  lemma ShownInOrder(out: seq<Fused>, ranked: seq<Item>)
    requires Ranked(ranked) && Shows(out, ranked)
    ensures forall i, j :: 0 <= i < j < |out| ==> out[i].score >= out[j].score
  {
    forall i, j | 0 <= i < j < |out| ensures out[i].score >= out[j].score {
      assert NotAfter(ranked[i], ranked[j]);
      Round4Monotone(ranked[j].score, ranked[i].score);
    }
  }

  method Render(t: Table, sorted: seq<Item>) returns (out: seq<Fused>)
    requires TableOk(t) && forall i :: 0 <= i < |sorted| ==> sorted[i].key in t.hits
    ensures Shows(out, sorted)
    ensures forall i :: 0 <= i < |out| ==> out[i].hit == t.hits[sorted[i].key]
  {
    out := [];
    for i := 0 to |sorted|
      invariant Shows(out, sorted[..i])
      invariant forall j :: 0 <= j < i ==> out[j].hit == t.hits[sorted[j].key]
    {
      out := out + [Fused(t.hits[sorted[i].key], Round4(sorted[i].score))];
    }
    assert sorted[..|sorted|] == sorted;
  }

  /** The outer loop over the lists; a zero denominator raises. */
  method Accumulate(lists: seq<seq<Hit>>, ws: seq<real>, k: int) returns (t: Result<Table>)
    requires |lists| == |ws|
    ensures t.Ok? <==> AllDivisible(lists, k)
    ensures t.Ok? ==> t.value == AddedAll(lists, ws, k)
  {
    var table := Table([], map[], map[]);
    for i := 0 to |lists|
      invariant AllDivisible(lists[..i], k)
      invariant table == AddedAll(lists[..i], ws[..i], k)
    {
      if !Divisible(lists[i], k) { return Raise("ZeroDivisionError"); }
      AddedNext(lists, ws, k, i);
      table := AddList(table, lists[i], ws[i], k);
    }
    assert lists[..|lists|] == lists && ws[..|lists|] == ws;
    t := Ok(table);
  }

  lemma AddedNext(lists: seq<seq<Hit>>, ws: seq<real>, k: int, i: nat)
    requires |lists| == |ws| && i < |lists| && AllDivisible(lists[..i], k) && Divisible(lists[i], k)
    ensures AllDivisible(lists[..i + 1], k)
    ensures AddedAll(lists[..i + 1], ws[..i + 1], k) == Added(AddedAll(lists[..i], ws[..i], k), lists[i], ws[i], k)
  {
    assert lists[..i + 1][..i] == lists[..i] && ws[..i + 1][..i] == ws[..i];
  }

  /** The inner loop over the ranks of one list. */
  method AddList(before: Table, list: seq<Hit>, w: real, k: int) returns (t: Table)
    requires Divisible(list, k)
    ensures t == Added(before, list, w, k)
  {
    t := before;
    for rank := 0 to |list|
      invariant t == Added(before, list[..rank], w, k)
    {
      assert list[..rank + 1][..rank] == list[..rank];
      t := Bump(t, list[rank], Term(w, k, rank));
    }
    assert list[..|list|] == list;
  }

  lemma OccursMore(lists: seq<seq<Hit>>, i: nat, key: string)
    requires i < |lists|
    ensures OccursIn(lists[..i + 1], key) <==> OccursIn(lists[..i], key) || Occurs(lists[i], key)
  {
    if OccursIn(lists[..i], key) {
      var j :| 0 <= j < i && Occurs(lists[..i][j], key);
      assert lists[..i + 1][j] == lists[j];
    }
    assert lists[..i + 1][i] == lists[i];
  }

  lemma RankedKeys(items: seq<Item>, ranked: seq<Item>, t: Table)
    requires TableOk(t) && items == Entries(t) && multiset(items) == multiset(ranked)
    ensures forall key :: key in t.scores <==> HasKey(ranked, key)
    ensures forall i, j :: 0 <= i < j < |ranked| ==> ranked[i].key != ranked[j].key
    ensures forall i :: 0 <= i < |ranked| ==> ranked[i].key in t.scores && ranked[i].score == t.scores[ranked[i].key]
  {
    forall i | 0 <= i < |ranked| ensures ranked[i].key in t.scores && ranked[i].score == t.scores[ranked[i].key] {
      InSeqMultiset(ranked[i], ranked, items);
    }
    forall key | key in t.scores ensures HasKey(ranked, key) {
      var p :| 0 <= p < |t.keys| && t.keys[p] == key;
      InSeqMultiset(items[p], items, ranked);
    }
    SortedKeysDistinct(items, ranked);
  }

  lemma SortedKeysDistinct(items: seq<Item>, ranked: seq<Item>)
    requires multiset(items) == multiset(ranked)
    requires forall i :: 0 <= i < |items| ==> items[i].position == i
    requires forall i, j :: 0 <= i < j < |items| ==> items[i].key != items[j].key
    ensures forall i, j :: 0 <= i < j < |ranked| ==> ranked[i].key != ranked[j].key
  {
    DistinctItems(items);
    forall i, j | 0 <= i < j < |ranked| ensures ranked[i].key != ranked[j].key {
      TwoPositions(ranked, i, j);
      assert multiset(items)[ranked[i]] <= 1;
      InSeqMultiset(ranked[i], ranked, items);
      InSeqMultiset(ranked[j], ranked, items);
      var p :| 0 <= p < |items| && items[p] == ranked[i];
      var q :| 0 <= q < |items| && items[q] == ranked[j];
      assert p != q;
    }
  }

  lemma {:induction false} DistinctItems(items: seq<Item>)
    requires forall i :: 0 <= i < |items| ==> items[i].position == i
    ensures forall x :: multiset(items)[x] <= 1
  {
    if items != [] {
      var n := |items| - 1;
      DistinctItems(items[..n]);
      assert items == items[..n] + [items[n]];
      assert items[n] !in items[..n];
    }
  }

  lemma TwoPositions(items: seq<Item>, i: nat, j: nat)
    requires i < j < |items|
    ensures items[i] == items[j] ==> multiset(items)[items[i]] >= 2
  {
    assert items == items[..j] + [items[j]] + items[j + 1..];
    assert items[i] in items[..j];
  }

  // ---- Dominance ---------------------------------------------------------------------------

  ghost predicate DistinctKeys(list: seq<Hit>) {
    forall i, j :: 0 <= i < j < |list| ==> list[i].key != list[j].key
  }

  /** Wherever `y` occurs, `x` occurs earlier. */
  ghost predicate Precedes(list: seq<Hit>, x: string, y: string) {
    forall r :: 0 <= r < |list| && list[r].key == y ==> exists q :: 0 <= q < r && list[q].key == x
  }

  lemma {:induction false} ScoreAtRank(list: seq<Hit>, w: real, k: int, key: string)
    requires k >= 0 && DistinctKeys(list)
    ensures !Occurs(list, key) ==> ListScore(list, w, k, key) == 0.0
    ensures forall r :: 0 <= r < |list| && list[r].key == key ==> ListScore(list, w, k, key) == Term(w, k, r)
  {
    if list != [] {
      var n := |list| - 1;
      var init := list[..n];
      ScoreAtRank(init, w, k, key);
      assert forall r :: 0 <= r < n ==> init[r] == list[r];
      assert Occurs(init, key) ==> Occurs(list, key);
    }
  }

  lemma TermDecreases(w: real, k: int, q: nat, r: nat)
    requires w > 0.0 && k >= 0 && q < r
    ensures Term(w, k, q) > Term(w, k, r) > 0.0
  {
    var a, b := (k + q + 1) as real, (k + r + 1) as real;
    Reciprocals(w, a, b);
  }

  lemma Reciprocals(w: real, a: real, b: real)
    requires w > 0.0 && 0.0 < a < b
    ensures w / a > w / b > 0.0
  {
    assert w / a * a == w && w / b * b == w;
    assert w / b * a < w / b * b;
  }

  lemma ListDominance(list: seq<Hit>, w: real, k: int, x: string, y: string)
    requires k >= 0 && w > 0.0 && DistinctKeys(list) && Precedes(list, x, y)
    ensures ListScore(list, w, k, x) >= ListScore(list, w, k, y)
    ensures Occurs(list, y) ==> ListScore(list, w, k, x) > ListScore(list, w, k, y)
  {
    ScoreAtRank(list, w, k, x);
    ScoreAtRank(list, w, k, y);
    if Occurs(list, y) {
      var r :| 0 <= r < |list| && list[r].key == y;
      var q :| 0 <= q < r && list[q].key == x;
      TermDecreases(w, k, q, r);
    } else if Occurs(list, x) {
      var q :| 0 <= q < |list| && list[q].key == x;
      TermDecreases(w, k, q, q + 1);
    }
  }

  /** An item that is ahead of another in every list containing the other has the larger score, and
      therefore comes before it in the fused list. */
  lemma {:induction false} Dominance(lists: seq<seq<Hit>>, ws: seq<real>, k: int, x: string, y: string)
    requires |lists| == |ws| && k >= 0
    requires forall i :: 0 <= i < |lists| ==> ws[i] > 0.0 && DistinctKeys(lists[i]) && Precedes(lists[i], x, y)
    ensures Score(lists, ws, k, x) >= Score(lists, ws, k, y)
    ensures OccursIn(lists, y) ==> Score(lists, ws, k, x) > Score(lists, ws, k, y)
    decreases |lists|
  {
    if lists != [] {
      var n := |lists| - 1;
      Dominance(lists[..n], ws[..n], k, x, y);
      ListDominance(lists[n], ws[n], k, x, y);
      assert lists[..n + 1] == lists;
      OccursMore(lists, n, y);
    }
  }

  lemma DominantComesFirst(lists: seq<seq<Hit>>, ws: seq<real>, k: int, ranked: seq<Item>, i: nat, j: nat)
    requires |lists| == |ws| && k >= 0 && IsFusion(lists, ws, k, ranked) && i < |ranked| && j < |ranked|
    requires forall p :: 0 <= p < |lists| ==>
               ws[p] > 0.0 && DistinctKeys(lists[p]) && Precedes(lists[p], ranked[i].key, ranked[j].key)
    ensures i < j
  {
    Dominance(lists, ws, k, ranked[i].key, ranked[j].key);
    assert HasKey(ranked, ranked[j].key);
    assert forall p, q :: 0 <= p <= q < |ranked| ==> ranked[p].score >= ranked[q].score by {
      assert forall p, q :: 0 <= p < q < |ranked| ==> NotAfter(ranked[p], ranked[q]);
    }
  }
}
