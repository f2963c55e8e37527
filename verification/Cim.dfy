/** The CIM connectivity parser (cim_parser.py), from the parsed RDF elements on: devices hang on
    connectivity nodes through terminals, and the parser derives a graph on the devices alone. */
module Cim {
  import opened Prelude

  /** The elements the loop tells apart; blank references and ids are empty strings. */
  datatype Element =
    | Substation(name: string)
    | Equipment(mrid: string, name: string, kind: string)
    | Terminal(mrid: string, equipment: string, node: string)
    | Other

  datatype Device = Device(mrid: string, name: string, kind: string)

  datatype Edge = Edge(a: string, b: string, via: string)

  /** A dictionary that remembers in which order its keys were first inserted. */
  datatype Dict<V> = Dict(keys: seq<string>, values: map<string, V>)

  ghost predicate WellFormed<V>(d: Dict<V>) {
    && (forall k :: k in d.keys <==> k in d.values)
    && (forall i, j :: 0 <= i < j < |d.keys| ==> d.keys[i] != d.keys[j])
  }

  function Put<V>(d: Dict<V>, k: string, v: V): Dict<V> {
    Dict(if k in d.values then d.keys else d.keys + [k], d.values[k := v])
  }

  datatype Graph = Graph(station: string, equipments: Dict<Device>, nodes: seq<string>, edges: seq<Edge>)

  // ---- What the records say ------------------------------------------------------------------

  predicate Links(e: Element) { e.Terminal? && e.mrid != "" && e.equipment != "" && e.node != "" }

  /** Some terminal puts the device on the node. */
  predicate Attached(elements: seq<Element>, device: string, node: string) {
    exists t :: t in elements && t.Terminal? && t.mrid != "" && device != "" && node != ""
                && t.equipment == device && t.node == node
  }

  /** Two different devices share a connectivity node. */
  ghost predicate Linked(elements: seq<Element>, a: string, b: string) {
    a != b && exists n :: Attached(elements, a, n) && Attached(elements, b, n)
  }

  predicate Joins(e: Edge, a: string, b: string) { (e.a == a && e.b == b) || (e.a == b && e.b == a) }

  ghost predicate Adjacent(edges: seq<Edge>, a: string, b: string) { exists e :: e in edges && Joins(e, a, b) }

  predicate SamePair(e: Edge, f: Edge) { Joins(f, e.a, e.b) }

  // ---- The parser --------------------------------------------------------------------------

  /** The name of the last substation that has one. */
  function Station(elements: seq<Element>): string {
    if elements == [] then ""
    else
      var el := elements[|elements| - 1];
      if el.Substation? && el.name != "" then el.name else Station(elements[..|elements| - 1])
  }

  function Devices(elements: seq<Element>): Dict<Device> {
    if elements == [] then Dict([], map[])
    else
      var el, before := elements[|elements| - 1], Devices(elements[..|elements| - 1]);
      if el.Equipment? && el.mrid != "" then
        Put(before, el.mrid, Device(el.mrid, if el.name != "" then el.name else el.mrid, el.kind))
      else before
  }

  function Members(elements: seq<Element>): Dict<seq<string>> {
    if elements == [] then Dict([], map[])
    else
      var el, before := elements[|elements| - 1], Members(elements[..|elements| - 1]);
      if Links(el) then
        Put(before, el.node, (if el.node in before.values then before.values[el.node] else []) + [el.equipment])
      else before
  }

  method ParseCim(elements: seq<Element>) returns (g: Graph)
    // The edges are exactly the pairs of distinct devices on a common node ...
    ensures forall a, b :: Adjacent(g.edges, a, b) <==> Linked(elements, a, b)
    // ... each pair once, never a device with itself, and `via` is a node they share.
    ensures forall i, j :: 0 <= i < j < |g.edges| ==> !SamePair(g.edges[i], g.edges[j])
    ensures forall e :: e in g.edges ==> e.a != e.b && Attached(elements, e.a, e.via) && Attached(elements, e.b, e.via)
    // Devices are joined by edges exactly when they are joined by terminals and nodes.
    ensures forall a, b :: GraphConnected(g.edges, a, b) <==> Wired(elements, a, b)
    // The nodes are those that carry a device, each once.
    ensures forall n :: n in g.nodes <==> exists d :: Attached(elements, d, n)
    ensures forall i, j :: 0 <= i < j < |g.nodes| ==> g.nodes[i] != g.nodes[j]
    ensures g.station == Station(elements) && g.equipments == Devices(elements)
  {
    var station, equipments, members := "", Dict([], map[]), Dict([], map[]);
    for n := 0 to |elements|
      invariant station == Station(elements[..n]) && equipments == Devices(elements[..n])
      invariant members == Members(elements[..n])
    {
      assert elements[..n + 1][..n] == elements[..n];
      var el := elements[n];
      if el.Substation? {
        if el.name != "" { station := el.name; }
      } else if el.Equipment? && el.mrid != "" {
        equipments := Put(equipments, el.mrid, Device(el.mrid, if el.name != "" then el.name else el.mrid, el.kind));
      } else if Links(el) {
        var list := if el.node in members.values then members.values[el.node] else [];
        members := Put(members, el.node, list + [el.equipment]);
      }
    }
    assert elements[..|elements|] == elements;
    MembersAreAttached(elements);
    var edges := DeriveEdges(members);
    PairsAreLinked(elements, members, edges);
    forall a, b ensures GraphConnected(edges, a, b) <==> Wired(elements, a, b) {
      ConnectionIsPreserved(elements, edges, a, b);
    }
    g := Graph(station, equipments, members.keys, edges);
  }

  predicate IsRecord(e: Element, k: string, d: Device) {
    e.Equipment? && e.mrid == k && d == Device(k, if e.name != "" then e.name else k, e.kind)
  }

  /** Element `i` is the last record of `k`, and `d` is what it says. */
  ghost predicate IsLastRecord(elements: seq<Element>, i: nat, k: string, d: Device) {
    i < |elements| && IsRecord(elements[i], k, d)
    && forall j :: i < j < |elements| ==> !(elements[j].Equipment? && elements[j].mrid == k)
  }

  /** The device table: one entry for each mRID, in order of first mention, holding the last
      record with that mRID. */
  lemma {:induction false} DevicesAreLastRecords(elements: seq<Element>)
    ensures WellFormed(Devices(elements)) && "" !in Devices(elements).values
    ensures forall k :: k in Devices(elements).values ==>
              exists i :: IsLastRecord(elements, i, k, Devices(elements).values[k])
    ensures forall e :: e in elements && e.Equipment? && e.mrid != "" ==> e.mrid in Devices(elements).values
  {
    if elements != [] {
      var n := |elements| - 1;
      var init, el := elements[..n], elements[n];
      assert elements == init + [el];
      DevicesAreLastRecords(init);
      var table := Devices(elements).values;
      forall k | k in table ensures exists i :: IsLastRecord(elements, i, k, table[k]) {
        if el.Equipment? && el.mrid == k {
          assert IsLastRecord(elements, n, k, table[k]);
        } else {
          var i :| IsLastRecord(init, i, k, table[k]);
          assert IsLastRecord(elements, i, k, table[k]);
        }
      }
    }
  }

  lemma {:induction false} MembersAreAttached(elements: seq<Element>)
    ensures MembersOf(elements, Members(elements))
  {
    if elements != [] {
      var n := |elements| - 1;
      MembersAreAttached(elements[..n]);
      AddMember(elements[..n], Members(elements[..n]), elements[n]);
      assert elements[..n] + [elements[n]] == elements;
    }
  }

  /** `cn_members`: the devices of each node, in the order of their terminals. */
  ghost predicate MembersOf(elements: seq<Element>, members: Dict<seq<string>>) {
    && WellFormed(members)
    && (forall n :: n in members.values ==> members.values[n] != [])
    && (forall n, d :: (n in members.values && d in members.values[n]) <==> Attached(elements, d, n))
  }

  lemma AddMember(before: seq<Element>, members: Dict<seq<string>>, el: Element)
    requires MembersOf(before, members)
    ensures var list := if el.Terminal? && el.node in members.values then members.values[el.node] else [];
            MembersOf(before + [el], if Links(el) then Put(members, el.node, list + [el.equipment]) else members)
  {
    var after := before + [el];
    forall d, n ensures Attached(after, d, n) <==>
        Attached(before, d, n) || (Links(el) && el.equipment == d && el.node == n)
    {
      if Attached(before, d, n) {
        var t :| t in before && Links(t) && t.equipment == d && t.node == n;
        assert t in after;
      }
      assert el in after;
    }
  }

  /** Some node lists both devices. */
  ghost predicate Together(members: Dict<seq<string>>, nodes: seq<string>, a: string, b: string) {
    exists n :: n in nodes && n in members.values && a in members.values[n] && b in members.values[n]
  }

  predicate OnNode(members: Dict<seq<string>>, e: Edge) {
    e.via in members.values && e.a in members.values[e.via] && e.b in members.values[e.via]
  }

  /** The invariant of the derivation: the edges so far are the pairs of `pairs`, each once. */
  ghost predicate EdgesFor(edges: seq<Edge>, seen: set<set<string>>) {
    && (forall e :: e in edges ==> e.a != e.b)
    && (forall a, b :: Adjacent(edges, a, b) <==> {a, b} in seen && a != b)
    && (forall i, j :: 0 <= i < j < |edges| ==> !SamePair(edges[i], edges[j]))
  }

  /** A pair of devices as the sorted tuple the parser keeps: the unordered pair. */
  function Key(a: string, b: string): set<string> { {a, b} }

  method DeriveEdges(members: Dict<seq<string>>) returns (edges: seq<Edge>)
    requires WellFormed(members)
    ensures forall a, b :: Adjacent(edges, a, b) <==> a != b && Together(members, members.keys, a, b)
    ensures forall i, j :: 0 <= i < j < |edges| ==> !SamePair(edges[i], edges[j])
    ensures forall e :: e in edges ==> e.a != e.b && OnNode(members, e)
  {
    edges := [];
    var seen: set<set<string>> := {};
    for n := 0 to |members.keys|
      invariant EdgesFor(edges, seen)
      invariant forall a, b :: a != b ==> (Key(a, b) in seen <==> Together(members, members.keys[..n], a, b))
      invariant forall e :: e in edges ==> OnNode(members, e)
    {
      var node := members.keys[n];
      assert node in members.values;
      edges, seen := NodeEdges(node, members.values[node], edges, seen);
      assert members.keys[..n + 1] == members.keys[..n] + [node];
    }
    assert members.keys[..|members.keys|] == members.keys;
  }

  /** The middle loop: all pairs of one node. */
  method NodeEdges(node: string, list: seq<string>, edges0: seq<Edge>, seen0: set<set<string>>)
    returns (edges: seq<Edge>, seen: set<set<string>>)
    requires EdgesFor(edges0, seen0)
    ensures EdgesFor(edges, seen)
    ensures forall a, b :: a != b ==> (Key(a, b) in seen <==> Key(a, b) in seen0 || (a in list && b in list))
    ensures forall e :: e in edges ==> e in edges0 || (e.via == node && e.a in list && e.b in list)
  {
    edges, seen := edges0, seen0;
    for i := 0 to |list|
      invariant EdgesFor(edges, seen)
      invariant forall a, b :: a != b ==> (Key(a, b) in seen <==> Key(a, b) in seen0 || Early(list, i, a, b))
      invariant forall e :: e in edges ==> e in edges0 || (e.via == node && e.a in list && e.b in list)
    {
      edges, seen := RowEdges(node, list, i, edges, seen);
      forall x, y | x != y ensures Early(list, i + 1, x, y) <==> Early(list, i, x, y) || Row(list, i, |list|, x, y) {}
    }
    forall a, b | a != b ensures Early(list, |list|, a, b) <==> a in list && b in list {
      if a in list && b in list {
        var i :| 0 <= i < |list| && list[i] == a;
        var j :| 0 <= j < |list| && list[j] == b;
        assert Early(list, |list|, a, b);
      }
    }
  }

  /** The innermost loop: the pairs of position `i` with the later positions. */
  method RowEdges(node: string, list: seq<string>, i: nat, edges0: seq<Edge>, seen0: set<set<string>>)
    returns (edges: seq<Edge>, seen: set<set<string>>)
    requires i < |list| && EdgesFor(edges0, seen0)
    ensures EdgesFor(edges, seen)
    ensures forall a, b :: a != b ==> (Key(a, b) in seen <==> Key(a, b) in seen0 || Row(list, i, |list|, a, b))
    ensures forall e :: e in edges ==> e in edges0 || (e.via == node && e.a in list && e.b in list)
  {
    edges, seen := edges0, seen0;
    for j := i + 1 to |list|
      invariant EdgesFor(edges, seen)
      invariant forall a, b :: a != b ==> (Key(a, b) in seen <==> Key(a, b) in seen0 || Row(list, i, j, a, b))
      invariant forall e :: e in edges ==> e in edges0 || (e.via == node && e.a in list && e.b in list)
    {
      var a, b := list[i], list[j];
      if a != b && Key(a, b) !in seen {
        AddEdge(edges, seen, Edge(a, b, node));
        seen := seen + {Key(a, b)};
        edges := edges + [Edge(a, b, node)];
      }
      forall x, y | x != y ensures Row(list, i, j + 1, x, y) <==> Row(list, i, j, x, y) || Key(x, y) == Key(a, b) {
        RowStep(list, i, j, x, y);
      }
    }
  }

  /** The pair stands at two positions of the list, the earlier one before `i`. */
  ghost predicate Early(list: seq<string>, i: nat, a: string, b: string)
    requires i <= |list|
  {
    exists p, q :: 0 <= p < i && p < q < |list| && Key(list[p], list[q]) == Key(a, b)
  }

  /** The pair stands at position `i` and at a later position before `j`. */
  ghost predicate Row(list: seq<string>, i: nat, j: nat, a: string, b: string)
    requires i < |list| && j <= |list|
  {
    exists q :: i < q < j && Key(list[i], list[q]) == Key(a, b)
  }

  lemma RowStep(list: seq<string>, i: nat, j: nat, x: string, y: string)
    requires i < j < |list|
    ensures Row(list, i, j + 1, x, y) <==> Row(list, i, j, x, y) || Key(x, y) == Key(list[i], list[j])
  {
  }

  lemma AddEdge(edges: seq<Edge>, seen: set<set<string>>, e: Edge)
    requires EdgesFor(edges, seen) && e.a != e.b && Key(e.a, e.b) !in seen
    ensures EdgesFor(edges + [e], seen + {Key(e.a, e.b)})
  {
    var after := edges + [e];
    forall a, b ensures Adjacent(after, a, b) <==> Adjacent(edges, a, b) || Joins(e, a, b) {
      if Adjacent(edges, a, b) {
        var f :| f in edges && Joins(f, a, b);
        assert f in after;
      }
      assert e in after;
    }
    forall a, b ensures Joins(e, a, b) <==> Key(a, b) == Key(e.a, e.b) { PairEquality(a, b, e.a, e.b); }
    forall i | 0 <= i < |edges| ensures !SamePair(edges[i], e) {
      assert edges[i] in edges && !Adjacent(edges, e.a, e.b);
    }
  }

  lemma PairEquality(a: string, b: string, c: string, d: string)
    ensures Key(a, b) == Key(c, d) <==> (a == c && b == d) || (a == d && b == c)
  {
    if Key(a, b) == Key(c, d) {
      assert a in Key(c, d) && b in Key(c, d) && c in Key(a, b) && d in Key(a, b);
    }
  }

  lemma PairsAreLinked(elements: seq<Element>, members: Dict<seq<string>>, edges: seq<Edge>)
    requires MembersOf(elements, members)
    requires forall a, b :: Adjacent(edges, a, b) <==> a != b && Together(members, members.keys, a, b)
    ensures forall a, b :: Adjacent(edges, a, b) <==> Linked(elements, a, b)
    ensures forall n :: n in members.keys <==> exists d :: Attached(elements, d, n)
  {
    forall a, b ensures Together(members, members.keys, a, b) <==>
        exists n :: Attached(elements, a, n) && Attached(elements, b, n)
    {
      if n :| Attached(elements, a, n) && Attached(elements, b, n) {
        assert n in members.values && a in members.values[n] && b in members.values[n];
      }
      if Together(members, members.keys, a, b) {
        var n :| n in members.keys && n in members.values && a in members.values[n] && b in members.values[n];
        assert Attached(elements, a, n) && Attached(elements, b, n);
      }
    }
    forall n | n in members.keys ensures exists d :: Attached(elements, d, n) {
      assert members.values[n][0] in members.values[n];
      assert Attached(elements, members.values[n][0], n);
    }
  }

  // ---- Electrical connection -------------------------------------------------------------------

  /** A walk on the derived graph. */
  ghost predicate EdgePath(edges: seq<Edge>, path: seq<string>) {
    path != [] && forall i :: 0 <= i < |path| - 1 ==> Adjacent(edges, path[i], path[i + 1])
  }

  /** A walk device, node, device, ... along terminals: `nodes[i]` lies between two devices. */
  ghost predicate TerminalPath(elements: seq<Element>, path: seq<string>, nodes: seq<string>) {
    && |path| == |nodes| + 1
    && forall i :: 0 <= i < |nodes| ==>
         Attached(elements, path[i], nodes[i]) && Attached(elements, path[i + 1], nodes[i])
  }

  ghost predicate GraphConnected(edges: seq<Edge>, a: string, b: string) {
    exists path :: EdgePath(edges, path) && path[0] == a && path[|path| - 1] == b
  }

  ghost predicate Wired(elements: seq<Element>, a: string, b: string) {
    exists path, nodes :: TerminalPath(elements, path, nodes) && path[0] == a && path[|path| - 1] == b
  }

  lemma {:induction false} WalkToWire(elements: seq<Element>, edges: seq<Edge>, path: seq<string>)
    returns (nodes: seq<string>)
    requires forall a, b :: Adjacent(edges, a, b) ==> Linked(elements, a, b)
    requires EdgePath(edges, path)
    ensures TerminalPath(elements, path, nodes)
    decreases |path|
  {
    nodes := [];
    if |path| > 1 {
      assert Adjacent(edges, path[0], path[1]);
      var n :| Attached(elements, path[0], n) && Attached(elements, path[1], n);
      assert forall i :: 0 <= i < |path[1..]| ==> path[1..][i] == path[i + 1];
      var rest := WalkToWire(elements, edges, path[1..]);
      nodes := [n] + rest;
    }
  }

  /** A wire may pass a node between one device and itself; the walk leaves such steps out. */
  lemma {:induction false} WireToWalk(elements: seq<Element>, edges: seq<Edge>, path: seq<string>, nodes: seq<string>)
    returns (walk: seq<string>)
    requires forall a, b :: Linked(elements, a, b) ==> Adjacent(edges, a, b)
    requires TerminalPath(elements, path, nodes)
    ensures EdgePath(edges, walk) && walk[0] == path[0] && walk[|walk| - 1] == path[|path| - 1]
    decreases |path|
  {
    if nodes == [] {
      walk := path;
    } else {
      assert forall i :: 0 <= i < |nodes| - 1 ==> path[1..][i] == path[i + 1] && nodes[1..][i] == nodes[i + 1];
      var rest := WireToWalk(elements, edges, path[1..], nodes[1..]);
      walk := if path[0] == path[1] then rest else [path[0]] + rest;
      if path[0] != path[1] {
        assert Attached(elements, path[0], nodes[0]) && Attached(elements, path[1], nodes[0]);
        assert Linked(elements, path[0], path[1]);
        assert forall i :: 0 < i < |walk| - 1 ==> walk[i] == rest[i - 1] && walk[i + 1] == rest[i];
      }
    }
  }

  /** The derived graph keeps electrical connection: two devices are joined by edges exactly when
      they are joined by terminals and nodes. */
  lemma ConnectionIsPreserved(elements: seq<Element>, edges: seq<Edge>, a: string, b: string)
    requires forall x, y :: Adjacent(edges, x, y) <==> Linked(elements, x, y)
    ensures GraphConnected(edges, a, b) <==> Wired(elements, a, b)
  {
    if GraphConnected(edges, a, b) {
      var path :| EdgePath(edges, path) && path[0] == a && path[|path| - 1] == b;
      var nodes := WalkToWire(elements, edges, path);
      assert TerminalPath(elements, path, nodes);
    }
    if Wired(elements, a, b) {
      var path, nodes :| TerminalPath(elements, path, nodes) && path[0] == a && path[|path| - 1] == b;
      var walk := WireToWalk(elements, edges, path, nodes);
      assert EdgePath(edges, walk);
    }
  }

  // ---- Triples -----------------------------------------------------------------------------

  function NameOf(g: Graph, mrid: string): string {
    if mrid in g.equipments.values then g.equipments.values[mrid].name else mrid
  }

  method GraphToTriples(g: Graph) returns (triples: seq<(string, string)>)
    ensures |triples| == |g.edges|
    ensures forall i :: 0 <= i < |triples| ==> triples[i] == (NameOf(g, g.edges[i].a), NameOf(g, g.edges[i].b))
  {
    triples := [];
    for i := 0 to |g.edges|
      invariant |triples| == i
      invariant forall k :: 0 <= k < i ==> triples[k] == (NameOf(g, g.edges[k].a), NameOf(g, g.edges[k].b))
    {
      triples := triples + [(NameOf(g, g.edges[i].a), NameOf(g, g.edges[i].b))];
    }
  }
}
