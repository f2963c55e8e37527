/** The semantic index of the answer cache (semantic_cache.py): one bounded list of entries for each
    tenant, read, changed and written back under a lock.  The Redis store is a map from index keys to
    lists; its failures, the embedding service and the clock are parameters. */
module SemanticCache {
  import opened Prelude
  import opened Text

  const MAX_INDEX_SIZE: nat := 5000
  const KEPT: nat := 4900

  /** `model` and `ts` may be missing in entries that older versions wrote. */
  datatype Entry = Entry(query: string, tenant: string, model: Option<string>, emb: string, cacheKey: string,
                         ts: Option<real>)

  function ModelOf(e: Entry): string { if e.model.Some? then e.model.value else "default" }

  function Time(e: Entry): real { if e.ts.Some? then e.ts.value else 0.0 }

  function OrDefault(s: Option<string>): string { if s.None? || s.value == "" then "default" else s.value }

  function CacheTenant(tenant: Option<string>): string {
    var t := Strip(OrDefault(tenant));
    if t == "" then "default" else t
  }

  function IndexKey(tenant: Option<string>): string {
    "qa_semantic:tenant:" + CacheTenant(tenant) + ":index:v3"
  }

  /** How missing names read: a missing or empty model is "default", as is a tenant that is missing or
      blank; an entry without a time counts as oldest. */
  lemma NamesAre(name: Option<string>, e: Entry)
    ensures OrDefault(name) == match name case None => "default" case Some(s) => if s == "" then "default" else s
    ensures CacheTenant(name) == match name
                                 case None => "default"
                                 case Some(s) => if Strip(s) == "" then "default" else Strip(s)
    ensures e.model.None? ==> ModelOf(e) == "default"
    ensures e.model.Some? ==> ModelOf(e) == e.model.value
    ensures Time(e) == match e.ts case None => 0.0 case Some(t) => t
  {
    assert Strip("default") == "default";
    assert Strip("") == "";
  }

  predicate Matches(e: Entry, query: string, model: string) { e.query == query && ModelOf(e) == model }

  // ---- The list operations -----------------------------------------------------------------------

  function FirstMatch(index: seq<Entry>, query: string, model: string): (k: nat)
    ensures k <= |index| && (k < |index| ==> Matches(index[k], query, model))
    ensures forall i :: 0 <= i < k ==> !Matches(index[i], query, model)
  {
    if index == [] || Matches(index[0], query, model) then 0 else 1 + FirstMatch(index[1..], query, model)
  }

  function InsertByTime(x: Entry, sorted: seq<Entry>): seq<Entry> {
    if sorted == [] || Time(x) <= Time(sorted[0]) then [x] + sorted
    else [sorted[0]] + InsertByTime(x, sorted[1..])
  }

  /** `index.sort(key=ts)`; entries of equal time keep their order. */
  function SortByTime(index: seq<Entry>): (r: seq<Entry>)
    ensures |r| == |index|
    ensures multiset(r) == multiset(index)
  {
    if index == [] then []
    else
      assert index == [index[0]] + index[1..];
      InsertKeeps(index[0], SortByTime(index[1..]));
      InsertByTime(index[0], SortByTime(index[1..]))
  }

  lemma {:induction false} InsertKeeps(x: Entry, s: seq<Entry>)
    ensures |InsertByTime(x, s)| == |s| + 1 && multiset(InsertByTime(x, s)) == multiset(s) + multiset{x}
  {
    if s != [] && !(Time(x) <= Time(s[0])) {
      InsertKeeps(x, s[1..]);
      assert s == [s[0]] + s[1..];
    }
  }

  ghost predicate InTimeOrder(s: seq<Entry>) { forall i, j :: 0 <= i < j < |s| ==> Time(s[i]) <= Time(s[j]) }

  lemma {:induction false} InsertOrders(x: Entry, s: seq<Entry>)
    requires InTimeOrder(s)
    ensures InTimeOrder(InsertByTime(x, s))
  {
    if s != [] && !(Time(x) <= Time(s[0])) {
      InsertOrders(x, s[1..]);
      InsertKeeps(x, s[1..]);
      var tail := InsertByTime(x, s[1..]);
      forall y | y in tail ensures Time(s[0]) <= Time(y) {
        assert y in multiset(tail);
        assert y == x || y in s[1..];
      }
      FirstInOrder(s[0], tail);
    }
  }

  lemma FirstInOrder(x: Entry, tail: seq<Entry>)
    requires InTimeOrder(tail) && forall y :: y in tail ==> Time(x) <= Time(y)
    ensures InTimeOrder([x] + tail)
  {
    forall i, j | 0 <= i < j < |[x] + tail| ensures Time(([x] + tail)[i]) <= Time(([x] + tail)[j]) {
      assert ([x] + tail)[j] == tail[j - 1];
    }
  }

  lemma {:induction false} SortOrders(index: seq<Entry>)
    ensures InTimeOrder(SortByTime(index))
  {
    if index != [] {
      SortOrders(index[1..]);
      InsertOrders(index[0], SortByTime(index[1..]));
    }
  }

  function OfTime(s: seq<Entry>, t: real): seq<Entry> {
    if s == [] then [] else (if Time(s[0]) == t then [s[0]] else []) + OfTime(s[1..], t)
  }

  lemma {:induction false} InsertIsStable(x: Entry, s: seq<Entry>, t: real)
    requires InTimeOrder(s)
    ensures OfTime(InsertByTime(x, s), t) == (if Time(x) == t then [x] else []) + OfTime(s, t)
  {
    if s != [] && !(Time(x) <= Time(s[0])) { InsertIsStable(x, s[1..], t); }
  }

  /** Entries of equal time keep their order, so the one stored first is evicted first. */
  lemma {:induction false} SortIsStable(index: seq<Entry>, t: real)
    ensures OfTime(SortByTime(index), t) == OfTime(index, t)
  {
    if index != [] {
      SortIsStable(index[1..], t);
      SortOrders(index[1..]);
      InsertIsStable(index[0], SortByTime(index[1..]), t);
    }
  }

  /** What survives when a full index must take a new entry: the newest 4900. */
  function Survivors(index: seq<Entry>): seq<Entry>
    requires |index| >= MAX_INDEX_SIZE
  {
    SortByTime(index)[|index| - KEPT..]
  }

  function Evicted(index: seq<Entry>): seq<Entry>
    requires |index| >= MAX_INDEX_SIZE
  {
    SortByTime(index)[..|index| - KEPT]
  }

  /** Eviction splits the index, and nobody evicted is newer than anybody kept. */
  lemma EvictionIsFair(index: seq<Entry>)
    requires |index| >= 5000
    ensures multiset(Evicted(index)) + multiset(Survivors(index)) == multiset(index)
    ensures |Survivors(index)| == 4900
    ensures forall gone, kept :: gone in Evicted(index) && kept in Survivors(index) ==> Time(gone) <= Time(kept)
  {
    SortOrders(index);
    assert SortByTime(index) == Evicted(index) + Survivors(index);
  }

  function Room(index: seq<Entry>): seq<Entry> {
    if |index| >= MAX_INDEX_SIZE then Survivors(index) else index
  }

  /** The index after a set: the first match is overwritten in place, or the entry is appended. */
  function Put(index: seq<Entry>, e: Entry): seq<Entry> {
    var k := FirstMatch(index, e.query, ModelOf(e));
    if k < |index| then index[k := e] else Room(index) + [e]
  }

  function Without(index: seq<Entry>, query: string, model: string): seq<Entry> {
    if index == [] then []
    else (if Matches(index[0], query, model) then [] else [index[0]]) + Without(index[1..], query, model)
  }

  // ---- What an index must satisfy -------------------------------------------------------------

  /** No two entries with the same query and model. */
  ghost predicate NoTwins(index: seq<Entry>) {
    forall i, j :: 0 <= i < j < |index| ==> !Matches(index[i], index[j].query, ModelOf(index[j]))
  }

  ghost predicate Sound(index: seq<Entry>) { |index| <= 5000 && NoTwins(index) }

  lemma {:induction false} InsertKeepsNoTwins(x: Entry, s: seq<Entry>)
    requires NoTwins(s) && forall y :: y in s ==> !Matches(x, y.query, ModelOf(y))
    ensures NoTwins(InsertByTime(x, s))
  {
    if s != [] && !(Time(x) <= Time(s[0])) {
      InsertKeepsNoTwins(x, s[1..]);
      InsertKeeps(x, s[1..]);
      var tail := InsertByTime(x, s[1..]);
      forall y | y in tail ensures !Matches(s[0], y.query, ModelOf(y)) {
        assert y in multiset(tail);
        assert y == x || y in s[1..];
        assert s[0] in s;
      }
    }
  }

  lemma {:induction false} SortKeepsNoTwins(index: seq<Entry>)
    requires NoTwins(index)
    ensures NoTwins(SortByTime(index))
  {
    if index != [] {
      var rest := SortByTime(index[1..]);
      SortKeepsNoTwins(index[1..]);
      forall y | y in rest ensures !Matches(index[0], y.query, ModelOf(y)) {
        InSeqMultiset(y, rest, index[1..]);
      }
      InsertKeepsNoTwins(index[0], rest);
    }
  }

  /** The members of a changed index are old ones and the new one. */
  lemma RoomIsSubset(index: seq<Entry>)
    ensures forall y :: y in Room(index) ==> y in index
  {
    forall y | y in Room(index) ensures y in index {
      if |index| >= MAX_INDEX_SIZE { InSeqMultiset(y, SortByTime(index), index); }
    }
  }

  lemma PutIsSound(index: seq<Entry>, e: Entry)
    requires Sound(index)
    ensures Sound(Put(index, e)) && e in Put(index, e)
  {
    RoomIsSubset(index);
    var k := FirstMatch(index, e.query, ModelOf(e));
    if k < |index| {
      assert index[k := e][k] == e;
    } else {
      SortKeepsNoTwins(index);
      assert NoTwins(Room(index));
      assert forall y :: y in Room(index) ==> !Matches(y, e.query, ModelOf(e));
    }
  }

  /** Every other entry of the new index was there before; the new one has its pair to itself. */
  lemma PutOrigin(index: seq<Entry>, e: Entry, y: Entry)
    requires Sound(index) && y in Put(index, e)
    ensures y == e || (y in index && !Matches(y, e.query, ModelOf(e)))
  {
    RoomIsSubset(index);
    var k := FirstMatch(index, e.query, ModelOf(e));
    var i :| 0 <= i < |Put(index, e)| && Put(index, e)[i] == y;
    if k < |index| && i != k {
      assert Matches(index[k], e.query, ModelOf(e));
      assert i < k ==> !Matches(index[i], index[k].query, ModelOf(index[k]));
      assert k < i ==> !Matches(index[k], index[i].query, ModelOf(index[i]));
    }
  }

  lemma {:induction false} WithoutRemoves(index: seq<Entry>, query: string, model: string)
    ensures forall y :: y in Without(index, query, model) <==> y in index && !Matches(y, query, model)
    ensures |Without(index, query, model)| <= |index|
    ensures NoTwins(index) ==> NoTwins(Without(index, query, model))
  {
    if index != [] {
      WithoutRemoves(index[1..], query, model);
      WithoutHasOnly(index, query, model);
      if NoTwins(index) { WithoutKeepsNoTwins(index, query, model); }
    }
  }

  lemma WithoutHasOnly(index: seq<Entry>, query: string, model: string)
    requires index != []
    requires forall y :: y in Without(index[1..], query, model) <==> y in index[1..] && !Matches(y, query, model)
    ensures forall y :: y in Without(index, query, model) <==> y in index && !Matches(y, query, model)
  {
    assert index == [index[0]] + index[1..];
  }

  lemma WithoutKeepsNoTwins(index: seq<Entry>, query: string, model: string)
    requires index != [] && NoTwins(index) && NoTwins(Without(index[1..], query, model))
    requires forall y :: y in Without(index[1..], query, model) ==> y in index[1..]
    ensures NoTwins(Without(index, query, model))
  {
    var rest := Without(index[1..], query, model);
    assert forall y :: y in rest ==> !Matches(index[0], y.query, ModelOf(y));
  }

  // ---- The store ------------------------------------------------------------------------------

  type Store = map<string, seq<Entry>>

  function Read(store: Store, key: string): seq<Entry> { if key in store then store[key] else [] }

  /** The faults a call may meet: a failing read or write of the store. */
  datatype Faults = Faults(read: bool, write: bool)

  datatype Event =
    | Set(model: Option<string>, query: string, cacheKey: string, embedding: Option<string>,
          tenant: Option<string>, enabled: bool, faults: Faults, now: real)
    | Invalidate(model: Option<string>, query: string, tenant: Option<string>, enabled: bool, faults: Faults)
    | Expire(key: string)

  function NewEntry(e: Event): Entry
    requires e.Set? && e.embedding.Some?
  {
    Entry(Strip(e.query), CacheTenant(e.tenant), Some(OrDefault(e.model)), e.embedding.value, e.cacheKey, Some(e.now))
  }

  /** The call gets as far as a successful write. */
  predicate Writes(e: Event) {
    match e
    case Set(_, query, _, embedding, _, enabled, faults, _) =>
      enabled && Strip(query) != "" && embedding.Some? && !faults.write
    case Invalidate(_, query, _, enabled, faults) => enabled && Strip(query) != "" && !faults.read && !faults.write
    case Expire(_) => true
  }

  function Apply(store: Store, e: Event): Store {
    if !Writes(e) then store
    else match e
      case Set(_, _, _, _, tenant, _, faults, _) =>
        store[IndexKey(tenant) := Put(if faults.read then [] else Read(store, IndexKey(tenant)), NewEntry(e))]
      case Invalidate(model, query, tenant, _, _) =>
        store[IndexKey(tenant) := Without(Read(store, IndexKey(tenant)), Strip(query), OrDefault(model))]
      case Expire(key) => store - {key}
  }

  class Cache {
    var store: Store

    constructor ()
      ensures store == map[]
    {
      store := map[];
    }

    /** `computed` is what the embedding service answers when no embedding is passed in; None is an
        exception. */
    method Set(model: Option<string>, query: string, cacheKey: string, given: Option<string>, computed: Option<string>,
               tenant: Option<string>, enabled: bool, faults: Faults, now: real)
      modifies this
      ensures store == Apply(old(store), Event.Set(model, query, cacheKey, if given.Some? then given else computed,
                                                   tenant, enabled, faults, now))
    {
      if !enabled { return; }
      var nq := Strip(query);
      if nq == "" { return; }
      var embedding := given;
      if embedding.None? { embedding := computed; }
      if embedding.None? { return; }
      var entry := Entry(nq, CacheTenant(tenant), Some(OrDefault(model)), embedding.value, cacheKey, Some(now));
      Update(IndexKey(tenant), entry, faults);
    }

    /** The locked section of `set`: read the index, put the entry in, write it back. */
    method Update(key: string, entry: Entry, faults: Faults)
      modifies this
      ensures store == if faults.write then old(store)
                       else old(store)[key := Put(if faults.read then [] else Read(old(store), key), entry)]
    {
      var index := if faults.read then [] else Read(store, key);
      var changed := PutInPlace(index, entry);
      if !faults.write { store := store[key := changed]; }
    }

    method Invalidate(model: Option<string>, query: string, tenant: Option<string>, enabled: bool, faults: Faults)
      modifies this
      ensures store == Apply(old(store), Event.Invalidate(model, query, tenant, enabled, faults))
    {
      if !enabled { return; }
      var nq := Strip(query);
      if nq == "" { return; }
      if faults.read { return; }
      var index := Without(Read(store, IndexKey(tenant)), nq, OrDefault(model));
      if !faults.write { store := store[IndexKey(tenant) := index]; }
    }
  }

  // ---- Lookup -----------------------------------------------------------------------------------

  const HIGH: real := 0.92
  const MEDIUM: real := 0.85

  datatype HitType = Exact | SemanticHigh | SemanticMedium | Miss

  datatype Lookup = Lookup(data: Option<string>, kind: HitType, similarity: real)

  /** The oracles of a lookup: whether an embedding decodes, its cosine with the query, the two reads
      of the answer store that a key may see, and the governance filter. */
  datatype Oracles = Oracles(decodes: Entry -> bool, cosine: Entry -> real, first: string -> Option<string>,
                             second: string -> Option<string>, blocked: string -> bool)

  predicate Candidate(o: Oracles, y: Entry, model: string) { ModelOf(y) == model && y.emb != "" && o.decodes(y) }

  /** An entry of the model whose embedding decodes; entries without a model count as "default". */
  ghost predicate Serves(o: Oracles, y: Entry, model: string) {
    (y.model == Some(model) || (y.model == None && model == "default")) && |y.emb| > 0 && o.decodes(y)
  }

  /** `y` is a usable entry of the model and none of the others is closer to the query. */
  ghost predicate Closest(o: Oracles, index: seq<Entry>, model: string, y: Entry) {
    y in index && Serves(o, y, model)
    && forall z :: z in index && Serves(o, z, model) ==> o.cosine(z) <= o.cosine(y)
  }

  function Answer(o: Oracles, data: string, kind: HitType, similarity: real): Lookup {
    if o.blocked(data) then Lookup(None, Miss, similarity) else Lookup(Some(data), kind, similarity)
  }

  /** The rows of the model and the position of the largest cosine among them. */
  method FindClosest(o: Oracles, index: seq<Entry>, model: string) returns (best: Option<Entry>)
    ensures best.None? <==> forall y :: y in index ==> !Serves(o, y, model)
    ensures best.Some? ==> Closest(o, index, model, best.value)
  {
    best := None;
    for i := 0 to |index|
      invariant best.None? ==> forall j :: 0 <= j < i ==> !Candidate(o, index[j], model)
      invariant best.Some? ==> Closest(o, index[..i], model, best.value)
    {
      assert index[..i + 1] == index[..i] + [index[i]];
      if Candidate(o, index[i], model) && (best.None? || o.cosine(index[i]) > o.cosine(best.value)) {
        best := Some(index[i]);
      }
    }
    assert index[..|index|] == index;
  }

  /** What the closest entry gives: its answer, read anew for each band, unless it is blocked. */
  predicate HitFrom(o: Oracles, y: Entry, r: Lookup) {
    var sim := o.cosine(y);
    r == if sim >= 0.92 && y.cacheKey != "" && o.first(y.cacheKey).Some? then
           if o.blocked(o.first(y.cacheKey).value) then Lookup(None, Miss, sim)
           else Lookup(o.first(y.cacheKey), SemanticHigh, sim)
         else if sim >= 0.85 && y.cacheKey != "" && o.second(y.cacheKey).Some? then
           if o.blocked(o.second(y.cacheKey).value) then Lookup(None, Miss, sim)
           else Lookup(o.second(y.cacheKey), SemanticMedium, sim)
         else Lookup(None, Miss, sim)
  }

  /** `exact` is the answer under the exact key; None when it is missing or its read fails. */
  method Get(store: Store, o: Oracles, model: Option<string>, query: string, tenant: Option<string>, enabled: bool,
             exact: Option<string>, embeds: bool, readFails: bool) returns (r: Lookup)
    ensures r.kind.Miss? <==> r.data.None?
    ensures r.data.Some? ==> enabled && Strip(query) != "" && !o.blocked(r.data.value)
    ensures r.kind.Exact? ==> r.data == exact
    // An exact answer is returned unless it is blocked, and then nothing else is tried.
    ensures enabled && Strip(query) != "" && exact.Some? ==>
              r == if o.blocked(exact.value) then Lookup(None, Miss, 1.0) else Lookup(exact, Exact, 1.0)
    ensures !enabled || Strip(query) == "" || (exact.None? && (!embeds || readFails)) ==> r == Lookup(None, Miss, 0.0)
    ensures enabled && Strip(query) != "" && exact.None? && embeds && !readFails ==>
              if exists y :: y in Read(store, IndexKey(tenant)) && Serves(o, y, OrDefault(model)) then
                exists y :: Closest(o, Read(store, IndexKey(tenant)), OrDefault(model), y) && HitFrom(o, y, r)
              else r == Lookup(None, Miss, 0.0)
    ensures r.kind.SemanticHigh? || r.kind.SemanticMedium? ==> exact.None? && exists y ::
              && Closest(o, Read(store, IndexKey(tenant)), OrDefault(model), y) && r.similarity == o.cosine(y) >= 0.85
              && (r.kind.SemanticHigh? <==> r.similarity >= 0.92 && o.first(y.cacheKey).Some?)
              && r.data == if r.kind.SemanticHigh? then o.first(y.cacheKey) else o.second(y.cacheKey)
    ensures enabled && Strip(query) != "" && exact.None? && embeds && !readFails
            && (forall y :: y in Read(store, IndexKey(tenant)) ==> y.cacheKey != "" && o.first(y.cacheKey).Some?)
            && (forall data :: !o.blocked(data))
            && (exists y :: y in Read(store, IndexKey(tenant)) && Serves(o, y, OrDefault(model))
                            && o.cosine(y) >= 0.92)
            ==> r.kind.SemanticHigh?
  {
    r := Lookup(None, Miss, 0.0);
    if !enabled || Strip(query) == "" { return; }
    if exact.Some? { return Answer(o, exact.value, Exact, 1.0); }
    if !embeds || readFails { return; }
    var best := FindClosest(o, Read(store, IndexKey(tenant)), OrDefault(model));
    if best.None? { return; }
    var y := best.value;
    r := Lookup(None, Miss, o.cosine(y));
    if r.similarity >= HIGH && y.cacheKey != "" {
      var cached := o.first(y.cacheKey);
      if cached.Some? { return Answer(o, cached.value, SemanticHigh, o.cosine(y)); }
    }
    if r.similarity >= MEDIUM && y.cacheKey != "" {
      var cached := o.second(y.cacheKey);
      if cached.Some? { return Answer(o, cached.value, SemanticMedium, o.cosine(y)); }
    }
  }

  /** The search loop with its `updated` flag, then eviction and append. */
  method PutInPlace(loaded: seq<Entry>, e: Entry) returns (index: seq<Entry>)
    ensures index == Put(loaded, e)
  {
    index := loaded;
    var updated := false;
    var i := 0;
    while i < |index| && !updated
      invariant i <= |index|
      invariant !updated ==> index == loaded && forall j :: 0 <= j < i ==> !Matches(loaded[j], e.query, ModelOf(e))
      invariant updated ==> index == Put(loaded, e)
      decreases |index| - i, !updated
    {
      if Matches(index[i], e.query, ModelOf(e)) {
        assert FirstMatch(loaded, e.query, ModelOf(e)) == i;
        index := index[i := e];
        updated := true;
      } else {
        i := i + 1;
      }
    }
    if !updated {
      assert FirstMatch(loaded, e.query, ModelOf(e)) == |loaded|;
      if |index| >= MAX_INDEX_SIZE { index := SortByTime(index)[|index| - KEPT..]; }
      index := index + [e];
    }
  }

  // ---- Runs -----------------------------------------------------------------------------------

  function After(events: seq<Event>): Store {
    if events == [] then map[] else Apply(After(events[..|events| - 1]), events[|events| - 1])
  }

  /** Whatever the calls and their faults, every tenant's index stays bounded and free of twins. */
  lemma {:induction false} IndexStaysSound(events: seq<Event>, key: string)
    ensures Sound(Read(After(events), key))
  {
    if events != [] {
      var init, last := events[..|events| - 1], events[|events| - 1];
      IndexStaysSound(init, key);
      if Writes(last) && last.Set? && IndexKey(last.tenant) == key {
        PutIsSound(if last.faults.read then [] else Read(After(init), key), NewEntry(last));
      } else if Writes(last) && last.Invalidate? && IndexKey(last.tenant) == key {
        WithoutRemoves(Read(After(init), key), Strip(last.query), OrDefault(last.model));
      }
    }
  }

  /** After a set that writes, its entry is there and is the only one for its query and model. */
  lemma SetIsPresent(events: seq<Event>, e: Event)
    requires e.Set? && Writes(e)
    ensures NewEntry(e) in Read(Apply(After(events), e), IndexKey(e.tenant))
    ensures forall y :: (y in Read(Apply(After(events), e), IndexKey(e.tenant))
                         && Matches(y, Strip(e.query), OrDefault(e.model))) ==> y == NewEntry(e)
  {
    IndexStaysSound(events, IndexKey(e.tenant));
    var index := if e.faults.read then [] else Read(After(events), IndexKey(e.tenant));
    PutIsSound(index, NewEntry(e));
    forall y | y in Put(index, NewEntry(e)) && Matches(y, Strip(e.query), OrDefault(e.model)) ensures y == NewEntry(e) {
      PutOrigin(index, NewEntry(e), y);
    }
  }

  /** After an invalidation that writes, no entry for its query and model is left, and every other
      entry of the tenant is. */
  lemma InvalidatedIsAbsent(store: Store, e: Event)
    requires e.Invalidate? && Writes(e)
    ensures forall y :: y in Read(Apply(store, e), IndexKey(e.tenant)) <==>
              y in Read(store, IndexKey(e.tenant)) && !Matches(y, Strip(e.query), OrDefault(e.model))
  {
    WithoutRemoves(Read(store, IndexKey(e.tenant)), Strip(e.query), OrDefault(e.model));
  }

  lemma {:induction false} StripStrips(s: string)
    ensures Strip(Strip(s)) == Strip(s)
  {
    var lead := Lead(s);
    var t := Trail(lead);
    assert t != "" ==> t[0] == lead[0];
  }

  /** An expired index is gone, and nothing else is. */
  lemma ExpiredIsAbsent(store: Store, key: string)
    ensures key !in Apply(store, Expire(key))
    ensures Apply(store, Expire(key)).Keys == store.Keys - {key}
    ensures forall k :: k in store && k != key ==> Apply(store, Expire(key))[k] == store[k]
  {
  }

  /** Index keys separate tenants exactly up to the normal form of their names. */
  lemma KeysSeparateTenants(a: Option<string>, b: Option<string>)
    ensures IndexKey(a) == IndexKey(b) <==> CacheTenant(a) == CacheTenant(b)
  {
    if IndexKey(a) == IndexKey(b) {
      MiddleIsUnique("qa_semantic:tenant:", CacheTenant(a), CacheTenant(b), ":index:v3");
    }
  }

  /** A tenant's normal form is its own normal form. */
  lemma NormalFormIsStable(tenant: Option<string>)
    ensures CacheTenant(Some(CacheTenant(tenant))) == CacheTenant(tenant)
  {
    StripStrips(OrDefault(tenant));
    assert Strip("default") == "default";
  }

  lemma MiddleIsUnique(front: string, s: string, t: string, back: string)
    requires front + s + back == front + t + back
    ensures s == t
  {
    assert |s| == |t|;
    assert s == (front + s + back)[|front|..|front| + |s|] && t == (front + t + back)[|front|..|front| + |t|];
  }

  /** A call for one tenant leaves the indexes of all the others alone. */
  lemma OtherTenantsUntouched(store: Store, e: Event, other: Option<string>)
    requires !e.Expire? && CacheTenant(other) != CacheTenant(e.tenant)
    ensures Read(Apply(store, e), IndexKey(other)) == Read(store, IndexKey(other))
  {
    KeysSeparateTenants(other, e.tenant);
  }

  // ---- Refinement: the bounded index never shows anything stale ------------------------------

  /** What the last write for a key, query and model said: the entry set, or nothing after an
      invalidation.  This ideal table forgets nothing. */
  function LastWrite(events: seq<Event>, key: string, query: string, model: string): Option<Entry> {
    if events == [] then None
    else
      var init, last := events[..|events| - 1], events[|events| - 1];
      if Writes(last) && !last.Expire? && IndexKey(last.tenant) == key && Strip(last.query) == query
         && OrDefault(last.model) == model
      then (if last.Set? then Some(NewEntry(last)) else None)
      else LastWrite(init, key, query, model)
  }

  /** Faults, evictions and expiry may lose entries, but an entry that the index holds is the one
      that the last write for its query and model stored. */
  lemma {:induction false} NothingStale(events: seq<Event>, key: string, y: Entry)
    requires y in Read(After(events), key)
    ensures LastWrite(events, key, y.query, ModelOf(y)) == Some(y)
  {
    if events != [] {
      var init, last := events[..|events| - 1], events[|events| - 1];
      IndexStaysSound(init, key);
      if !Writes(last) {
        NothingStale(init, key, y);
      } else if last.Expire? {
        NothingStale(init, key, y);
      } else if IndexKey(last.tenant) != key {
        NothingStale(init, key, y);
      } else if last.Set? {
        var index := if last.faults.read then [] else Read(After(init), key);
        PutOrigin(index, NewEntry(last), y);
        if y != NewEntry(last) { NothingStale(init, key, y); }
      } else {
        WithoutRemoves(Read(After(init), key), Strip(last.query), OrDefault(last.model));
        NothingStale(init, key, y);
      }
    }
  }

  /** A call without faults, eviction or expiry loses nothing either: what one set removes is exactly
      its own twin and the evicted entries. */
  lemma SetKeepsTheRest(index: seq<Entry>, e: Entry, y: Entry)
    requires Sound(index) && y in index && !Matches(y, e.query, ModelOf(e))
    ensures y in Put(index, e) || (|index| == MAX_INDEX_SIZE && y in Evicted(index))
  {
    var k := FirstMatch(index, e.query, ModelOf(e));
    var i :| 0 <= i < |index| && index[i] == y;
    if k < |index| {
      assert Put(index, e)[i] == y;
    } else if |index| == MAX_INDEX_SIZE {
      EvictionIsFair(index);
      assert y in multiset(index);
    } else {
      assert Put(index, e)[i] == y;
    }
  }
}
