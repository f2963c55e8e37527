/** The operation allowlist of the replay (replay.py): substitution of fixture values into request
    paths, the allowlist derived from an approved scenario, and the pattern match between the two. */
module Allowlist {
  import opened Prelude

  // ---- Regular expressions, as far as they are used ------------------------------------------------

  datatype Class = KeyChars | GroupChars | SegmentChars

  predicate In(k: Class, c: char) {
    match k
    case KeyChars => 'A' <= c <= 'Z' || 'a' <= c <= 'z' || '0' <= c <= '9' || c == '_' || c == '.' || c == '-'
    case GroupChars => c != '/' && c != '{' && c != '}'
    case SegmentChars => c != '/' && c != '?' && c != '#'
  }

  /** The three character classes, by code point. */
  lemma ClassesAre(c: char)
    ensures var n := c as int;
            In(KeyChars, c) <==> 65 <= n <= 90 || 97 <= n <= 122 || 48 <= n <= 57 || n == 95 || n == 46 || n == 45
    ensures In(GroupChars, c) <==> c !in "/{}"
    ensures In(SegmentChars, c) <==> c !in "/?#"
  {
    assert c as int == '_' as int ==> c == '_';
    assert c as int == '.' as int ==> c == '.';
    assert c as int == '-' as int ==> c == '-';
  }

  predicate AllIn(k: Class, s: string) { forall i :: 0 <= i < |s| ==> In(k, s[i]) }

  /** The length of the longest prefix made of the class. */
  function Run(k: Class, s: string): (n: nat)
    ensures n <= |s| && AllIn(k, s[..n]) && (n < |s| ==> !In(k, s[n]))
  {
    if s == "" || !In(k, s[0]) then 0 else 1 + Run(k, s[1..])
  }

  lemma {:induction false} RunIs(k: Class, a: string, w: string)
    requires AllIn(k, a) && (w == "" || !In(k, w[0]))
    ensures Run(k, a + w) == |a|
  {
    if a == "" {
      assert a + w == w;
    } else {
      assert (a + w)[1..] == a[1..] + w;
      RunIs(k, a[1..], w);
    }
  }

  // ---- Substitution ---------------------------------------------------------------------------------

  predicate ValidKey(key: string) { key != "" && AllIn(KeyChars, key) }

  function Placeholder(key: string): string { "${" + key + "}" }

  /** The length of the `${key}` at the start of `s`; 0 when there is none. */
  function PlaceholderLength(s: string): (n: nat)
    ensures n <= |s|
  {
    if |s| >= 2 && s[0] == '$' && s[1] == '{' then
      var r := Run(KeyChars, s[2..]);
      if r > 0 && 2 + r < |s| && s[2 + r] == '}' then r + 3 else 0
    else 0
  }

  /** A placeholder is found exactly where one with a valid key stands. */
  lemma PlaceholderLengthIff(s: string, n: nat)
    requires n > 0
    ensures PlaceholderLength(s) == n <==> exists key :: ValidKey(key) && "${" + key + "}" <= s && n == |key| + 3
  {
    if PlaceholderLength(s) == n {
      var key := s[2..][..n - 3];
      assert s[..n] == "${" + key + "}";
      assert ValidKey(key) && "${" + key + "}" <= s && n == |key| + 3;
    }
    if key :| ValidKey(key) && "${" + key + "}" <= s && n == |key| + 3 {
      assert s[2..] == key + s[2 + |key|..] && s[2 + |key|] == '}';
      RunIs(KeyChars, key, s[2 + |key|..]);
    }
  }

  /** `str.replace` for a non-empty pattern. */
  function Replace(s: string, pattern: string, value: string): string
    requires pattern != ""
    decreases |s|
  {
    if s == "" then ""
    else if pattern <= s then value + Replace(s[|pattern|..], pattern, value)
    else [s[0]] + Replace(s[1..], pattern, value)
  }

  type Variables = seq<(string, string)>

  function ReplaceAll(s: string, vars: Variables): string
    decreases |vars|
  {
    if vars == [] then s else ReplaceAll(Replace(s, Placeholder(vars[0].0), vars[0].1), vars[1..])
  }

  function Lookup(vars: Variables, key: string): Option<string> {
    if vars == [] then None else if vars[0].0 == key then Some(vars[0].1) else Lookup(vars[1..], key)
  }

  /** `_substitute` on a string: a string that is one placeholder is looked up, any other string has
      the variables replaced one after the other. */
  function Substitute(s: string, vars: Variables): string {
    if s != "" && PlaceholderLength(s) == |s| then
      var v := Lookup(vars, s[2..|s| - 1]);
      if v.Some? then v.value else ""
    else ReplaceAll(s, vars)
  }

  /** A string that is one placeholder becomes its value, or nothing when it has none. */
  lemma OnePlaceholderIsLookedUp(key: string, vars: Variables)
    requires ValidKey(key)
    ensures Substitute("${" + key + "}", vars) == match Lookup(vars, key) case Some(v) => v case None => ""
  {
    var s := "${" + key + "}";
    PlaceholderLengthIff(s, |s|);
    assert s[2..|s| - 1] == key;
  }

  /** Any other string has its variables replaced in order, the empty one included. */
  lemma OtherStringsAreReplaced(s: string, vars: Variables)
    requires forall key :: ValidKey(key) ==> s != "${" + key + "}"
    ensures Substitute(s, vars) == ReplaceAll(s, vars)
  {
    if s != "" {
      PlaceholderLengthIff(s, |s|);
      forall key: string | "${" + key + "}" <= s && |s| == |key| + 3 ensures s == "${" + key + "}" {}
    }
  }

  // ---- The allowlist --------------------------------------------------------------------------------

  /** `re.sub` of every placeholder by `{fixture}`. */
  function Fixtures(s: string): string
    decreases |s|
  {
    if s == "" then ""
    else
      var n := PlaceholderLength(s);
      if n > 0 then "{fixture}" + Fixtures(s[n..]) else [s[0]] + Fixtures(s[1..])
  }

  const METHODS := {"GET", "POST", "PUT", "PATCH", "DELETE"}

  type Operation = (string, string)

  /** `_approved_spec_operations` over the requests' upper-case methods and their paths. */
  function Approved(requests: seq<Operation>): set<Operation> {
    set r | r in requests && r.0 in METHODS && "/" <= r.1 :: (r.0, Fixtures(r.1))
  }

  /** The allowlist of a scenario: its requests with one of the five methods and an absolute path, the
      placeholders of the path replaced. */
  lemma ApprovedMeans(requests: seq<Operation>, op: Operation)
    ensures op in Approved(requests) <==>
              exists r :: r in requests && r.0 == op.0 && Fixtures(r.1) == op.1 && r.1 != "" && r.1[0] == '/'
                          && (r.0 == "GET" || r.0 == "POST" || r.0 == "PUT" || r.0 == "PATCH" || r.0 == "DELETE")
  {
    forall r: Operation ensures "/" <= r.1 <==> r.1 != "" && r.1[0] == '/' {}
  }

  /** The length of the `{name}` at the start of `s`; 0 when there is none. */
  function GroupLength(s: string): (n: nat)
    ensures n <= |s| && (n > 0 ==> s[0] == '{' && '/' !in s[..n])
  {
    if s != "" && s[0] == '{' then
      var r := Run(GroupChars, s[1..]);
      if r > 0 && 1 + r < |s| && s[1 + r] == '}' then
        assert s[..r + 2] == ['{'] + s[1..][..r] + ['}'];
        r + 2
      else 0
    else 0
  }

  /** A group is found exactly where a braced name without slash or brace stands. */
  lemma GroupLengthIff(s: string, n: nat)
    requires n > 0
    ensures GroupLength(s) == n <==>
              exists name :: name != "" && AllIn(GroupChars, name) && "{" + name + "}" <= s && n == |name| + 2
  {
    if GroupLength(s) == n {
      var name := s[1..][..n - 2];
      assert s[..n] == "{" + name + "}";
      assert name != "" && AllIn(GroupChars, name) && "{" + name + "}" <= s && n == |name| + 2;
    }
    if name :| name != "" && AllIn(GroupChars, name) && "{" + name + "}" <= s && n == |name| + 2 {
      assert s[1..] == name + s[1 + |name|..] && s[1 + |name|] == '}';
      RunIs(GroupChars, name, s[1 + |name|..]);
    }
  }

  /** Where the first `{name}` begins; the length of `s` when there is none. */
  function FirstGroup(s: string): (k: nat)
    ensures k <= |s| && (k < |s| ==> GroupLength(s[k..]) > 0)
  {
    if s == "" || GroupLength(s) > 0 then 0 else 1 + FirstGroup(s[1..])
  }

  /** `re.split` with a capturing group: texts and groups in turn. */
  function Parts(template: string): seq<string>
    decreases |template|
  {
    var k := FirstGroup(template);
    if k == |template| then [template]
    else
      var n := GroupLength(template[k..]);
      [template[..k], template[k..][..n]] + Parts(template[k + n..])
  }

  function Concat(parts: seq<string>): string { if parts == [] then "" else parts[0] + Concat(parts[1..]) }

  lemma ConcatTwo(a: string, b: string, rest: seq<string>)
    ensures Concat([a, b] + rest) == a + b + Concat(rest)
  {
    assert ([a, b] + rest)[1..] == [b] + rest && ([b] + rest)[1..] == rest;
    assert a + (b + Concat(rest)) == a + b + Concat(rest);
  }

  lemma {:induction false} PartsConcat(template: string)
    ensures Concat(Parts(template)) == template
    decreases |template|
  {
    var k := FirstGroup(template);
    if k == |template| {
      assert [template][1..] == [] && template + "" == template;
    } else {
      var n := GroupLength(template[k..]);
      PartsConcat(template[k + n..]);
      ConcatTwo(template[..k], template[k..][..n], Parts(template[k + n..]));
      Thirds(template, k, n);
    }
  }

  lemma Thirds(s: string, k: nat, n: nat)
    requires k + n <= |s|
    ensures s == s[..k] + s[k..][..n] + s[k + n..]
  {
  }

  /** Every part that starts with a brace becomes a wildcard, even a text part. */
  predicate IsWild(part: string) { part != "" && part[0] == '{' }

  /** A pattern, character by character; Wild stands for one or more segment characters. */
  datatype Token = Char(c: char) | Wild

  function Literal(s: string): (r: seq<Token>)
    ensures |r| == |s| && forall i :: 0 <= i < |s| ==> r[i] == Char(s[i])
  {
    seq(|s|, i requires 0 <= i < |s| => Char(s[i]))
  }

  function PartTokens(part: string): seq<Token> { if IsWild(part) then [Wild] else Literal(part) }

  function Tokens(parts: seq<string>): seq<Token> {
    if parts == [] then [] else PartTokens(parts[0]) + Tokens(parts[1..])
  }

  function Pattern(template: string): seq<Token> { Tokens(Parts(template)) }

  /** What a wildcard may stand for: in a path, segment characters; in the template itself, its own
      braced text. */
  datatype Mode = OfPath | OfTemplate

  predicate Fits(m: Mode, s: string) {
    match m
    case OfPath => s != "" && AllIn(SegmentChars, s)
    case OfTemplate => IsWild(s) && '/' !in s
  }

  predicate Matches(m: Mode, p: seq<Token>, s: string) {
    if p == [] then s == ""
    else match p[0]
      case Char(c) => s != "" && s[0] == c && Matches(m, p[1..], s[1..])
      case Wild => exists n :: 0 <= n <= |s| && Fits(m, s[..n]) && Matches(m, p[1..], s[n..])
  }

  /** What `^...$` reads of a path: `$` also matches before a final newline. */
  predicate Accepts(template: string, path: string) {
    || Matches(OfPath, Pattern(template), path)
    || (path != "" && path[|path| - 1] == '\n' && Matches(OfPath, Pattern(template), path[..|path| - 1]))
  }

  /** `_operation_allowed`. */
  predicate OperationAllowed(httpMethod: string, path: string, operations: set<Operation>) {
    exists op :: op in operations && op.0 == httpMethod && Accepts(op.1, path)
  }

  // ---- Templates whose literal text has no braces --------------------------------------------------

  /** A path template: literal text with placeholders between. */
  datatype Template = End(text: string) | Slot(text: string, key: string, rest: Template)

  function Source(t: Template): string {
    match t
    case End(s) => s
    case Slot(s, key, rest) => s + Placeholder(key) + Source(rest)
  }

  /** The template with every placeholder filled in. */
  function Filled(t: Template, vars: Variables): string {
    match t
    case End(s) => s
    case Slot(s, key, rest) => s + Value(vars, key) + Filled(rest, vars)
  }

  /** An unbound placeholder is left as it is. */
  function Value(vars: Variables, key: string): string {
    var v := Lookup(vars, key);
    if v.Some? then v.value else Placeholder(key)
  }

  function Shown(t: Template): string {
    match t
    case End(s) => s
    case Slot(s, key, rest) => s + "{fixture}" + Shown(rest)
  }

  predicate Braceless(s: string) { '{' !in s && '}' !in s }

  predicate Plain(t: Template) {
    Braceless(t.text) && (t.Slot? ==> ValidKey(t.key) && Plain(t.rest))
  }

  predicate KeysValid(t: Template) { t.Slot? ==> ValidKey(t.key) && KeysValid(t.rest) }

  /** No placeholder follows a literal dollar sign. */
  predicate Safe(t: Template) {
    t.Slot? ==> !EndsInDollar(t.text) && Safe(t.rest)
  }

  predicate EndsInDollar(s: string) { s != "" && s[|s| - 1] == '$' }

  /** No text holds the start of a placeholder. */
  predicate Calm(s: string) { forall i :: 0 <= i < |s| - 1 && s[i] == '$' ==> s[i + 1] != '{' }

  predicate Quiet(t: Template) { Calm(t.text) && (t.Slot? ==> Quiet(t.rest)) }

  /** A usable value: not empty, one path segment, without dollar signs. */
  predicate Usable(v: string) { v != "" && AllIn(SegmentChars, v) && '$' !in v }

  predicate Distinct(vars: Variables) { forall i, j :: 0 <= i < j < |vars| ==> vars[i].0 != vars[j].0 }

  predicate Admissible(vars: Variables) {
    Distinct(vars) && forall i :: 0 <= i < |vars| ==> ValidKey(vars[i].0) && Usable(vars[i].1)
  }

  // ---- Replacing one variable -----------------------------------------------------------------------

  function Prepend(u: string, t: Template): Template { t.(text := u + t.text) }

  function Bind(t: Template, key: string, value: string): Template {
    match t
    case End(s) => t
    case Slot(s, k, rest) =>
      if k == key then Prepend(s + value, Bind(rest, key, value)) else Slot(s, k, Bind(rest, key, value))
  }

  lemma PrependSource(u: string, t: Template)
    ensures Source(Prepend(u, t)) == u + Source(t)
  {
    if t.Slot? { assert (u + t.text) + Placeholder(t.key) + Source(t.rest) == u + Source(t); }
  }

  /** Calm text is copied by a replacement. */
  lemma {:induction false} ReplaceSkips(u: string, w: string, key: string, value: string)
    requires Calm(u) && (EndsInDollar(u) ==> w == "" || w[0] != '{')
    ensures Replace(u + w, Placeholder(key), value) == u + Replace(w, Placeholder(key), value)
  {
    if u == "" {
      assert u + w == w;
    } else {
      var s := u + w;
      assert s[1..] == u[1..] + w;
      CalmStarts(u, w, key);
      ReplaceSkips(u[1..], w, key, value);
      ReplaceStep(s, key, value);
    }
  }

  lemma CalmStarts(u: string, w: string, key: string)
    requires u != "" && Calm(u) && (EndsInDollar(u) ==> w == "" || w[0] != '{')
    ensures !(Placeholder(key) <= u + w)
  {
    var s := u + w;
    assert Placeholder(key)[0] == '$' && Placeholder(key)[1] == '{';
    assert |u| > 1 ==> s[1] == u[1];
    assert |u| == 1 && w != "" ==> s[1] == w[0];
  }

  lemma ReplaceStep(s: string, key: string, value: string)
    requires s != "" && !(Placeholder(key) <= s)
    ensures Replace(s, Placeholder(key), value) == [s[0]] + Replace(s[1..], Placeholder(key), value)
  {
  }

  lemma PlaceholderIsWhole(a: string, b: string, w: string)
    requires ValidKey(a) && ValidKey(b)
    ensures Placeholder(a) <= Placeholder(b) + w <==> a == b
  {
    var s := Placeholder(b) + w;
    KeyIsRead(b, s);
    if Placeholder(a) <= s { KeyIsRead(a, s); }
  }

  lemma KeyIsRead(a: string, s: string)
    requires ValidKey(a) && Placeholder(a) <= s
    ensures s[2..][..Run(KeyChars, s[2..])] == a
  {
    var rest := s[|a| + 3..];
    assert s == Placeholder(a) + rest;
    assert s[2..] == a + ("}" + rest);
    RunIs(KeyChars, a, "}" + rest);
  }

  lemma ReplaceSlot(k: string, w: string, key: string, value: string)
    requires ValidKey(k) && ValidKey(key)
    ensures Replace(Placeholder(k) + w, Placeholder(key), value)
            == (if k == key then value else Placeholder(k)) + Replace(w, Placeholder(key), value)
  {
    var s := Placeholder(k) + w;
    PlaceholderIsWhole(key, k, w);
    if k == key {
      assert s[|Placeholder(key)|..] == w;
    } else {
      var tail := "{" + k + "}";
      assert s[1..] == tail + w && Placeholder(k) == "$" + tail;
      ReplaceSkips(tail, w, key, value);
      assert ["$"[0]] + (tail + Replace(w, Placeholder(key), value))
          == Placeholder(k) + Replace(w, Placeholder(key), value);
    }
  }

  lemma ReplacePart(s: string, k: string, w: string, key: string, value: string)
    requires Calm(s) && ValidKey(k) && ValidKey(key)
    ensures Replace(s + Placeholder(k) + w, Placeholder(key), value)
            == s + (if k == key then value else Placeholder(k)) + Replace(w, Placeholder(key), value)
  {
    assert s + Placeholder(k) + w == s + (Placeholder(k) + w);
    ReplaceSkips(s, Placeholder(k) + w, key, value);
    ReplaceSlot(k, w, key, value);
    var v := if k == key then value else Placeholder(k);
    assert s + (v + Replace(w, Placeholder(key), value)) == s + v + Replace(w, Placeholder(key), value);
  }

  /** On a quiet template a replacement finds exactly the placeholders of its key. */
  lemma {:induction false} ReplaceBinds(t: Template, key: string, value: string)
    requires Quiet(t) && KeysValid(t) && ValidKey(key)
    ensures Replace(Source(t), Placeholder(key), value) == Source(Bind(t, key, value))
  {
    match t
    case End(s) =>
      ReplaceSkips(s, "", key, value);
      assert s + "" == s;
    case Slot(s, k, rest) =>
      ReplaceBinds(rest, key, value);
      ReplacePart(s, k, Source(rest), key, value);
      PrependSource(s + value, Bind(rest, key, value));
  }

  lemma {:induction false} BindFills(t: Template, vars: Variables)
    requires vars != [] && Distinct(vars)
    ensures Filled(Bind(t, vars[0].0, vars[0].1), vars[1..]) == Filled(t, vars)
    decreases t
  {
    if t.Slot? {
      BindFills(t.rest, vars);
      if t.key == vars[0].0 {
        PrependFilled(t.text + vars[0].1, Bind(t.rest, vars[0].0, vars[0].1), vars[1..]);
      }
    }
  }

  lemma PrependFilled(u: string, t: Template, vars: Variables)
    ensures Filled(Prepend(u, t), vars) == u + Filled(t, vars)
  {
    if t.Slot? { assert (u + t.text) + Value(vars, t.key) + Filled(t.rest, vars) == u + Filled(t, vars); }
  }

  lemma {:induction false} FilledWithNothing(t: Template)
    ensures Filled(t, []) == Source(t)
  {
    if t.Slot? { FilledWithNothing(t.rest); }
  }

  lemma CalmJoin(a: string, b: string)
    requires Calm(a) && Calm(b) && (EndsInDollar(a) ==> b == "" || b[0] != '{')
    ensures Calm(a + b)
  {
    var s := a + b;
    forall i | 0 <= i < |s| - 1 && s[i] == '$' ensures s[i + 1] != '{' {
      if i + 1 < |a| {
        assert s[i] == a[i] && s[i + 1] == a[i + 1];
      } else if i + 1 == |a| {
        assert s[i] == a[i] && s[i + 1] == b[0];
      } else {
        assert s[i] == b[i - |a|] && s[i + 1] == b[i + 1 - |a|];
      }
    }
  }

  /** Binding keeps a template quiet, provided no dollar sign meets a brace. */
  lemma {:induction false} BindStaysQuiet(t: Template, key: string, value: string)
    requires Quiet(t) && KeysValid(t) && Usable(value) && (Safe(t) || value[0] != '{')
    ensures Quiet(Bind(t, key, value)) && KeysValid(Bind(t, key, value))
    ensures Safe(t) ==> Safe(Bind(t, key, value))
  {
    if t.Slot? {
      BindStaysQuiet(t.rest, key, value);
      if t.key == key {
        var r := Bind(t.rest, key, value);
        assert Calm(value) && !EndsInDollar(value);
        CalmJoin(t.text, value);
        assert EndsInDollar(t.text + value) ==> EndsInDollar(value);
        CalmJoin(t.text + value, r.text);
      }
    }
  }

  predicate NoBraceFirst(vars: Variables) { forall i :: 0 <= i < |vars| ==> vars[i].1 == "" || vars[i].1[0] != '{' }

  /** The replacements, one after the other, amount to filling in the template at once. */
  lemma {:induction false} SequentialIsSimultaneous(t: Template, vars: Variables)
    requires Quiet(t) && KeysValid(t) && Admissible(vars) && (Safe(t) || NoBraceFirst(vars))
    ensures ReplaceAll(Source(t), vars) == Filled(t, vars)
    decreases |vars|
  {
    if vars == [] {
      FilledWithNothing(t);
    } else {
      var key, value := vars[0].0, vars[0].1;
      ReplaceBinds(t, key, value);
      BindStaysQuiet(t, key, value);
      SequentialIsSimultaneous(Bind(t, key, value), vars[1..]);
      BindFills(t, vars);
    }
  }

  // ---- The template's own allowlist entry -----------------------------------------------------------

  lemma {:induction false} FixturesCopies(s: string, n: nat)
    requires n <= |s| && forall i :: 0 <= i < n && s[i] == '$' && i + 1 < |s| ==> s[i + 1] != '{'
    ensures Fixtures(s) == s[..n] + Fixtures(s[n..])
  {
    if n == 0 {
      assert s[0..] == s;
    } else {
      FixturesCopies(s, n - 1);
      FixturesStep(s[n - 1..]);
      assert s[n - 1..][1..] == s[n..];
      MoveOne(s, n, Fixtures(s[n..]));
    }
  }

  lemma MoveOne(s: string, n: nat, f: string)
    requires 0 < n <= |s|
    ensures s[..n - 1] + ([s[n - 1]] + f) == s[..n] + f
  {
  }

  lemma FixturesSkips(u: string, w: string)
    requires Braceless(u) && (w == "" || w[0] != '{')
    ensures Fixtures(u + w) == u + Fixtures(w)
  {
    var s := u + w;
    forall i | 0 <= i < |u| && s[i] == '$' && i + 1 < |s| ensures s[i + 1] != '{' {
      if i + 1 < |u| { assert s[i + 1] == u[i + 1] && u[i + 1] in u; } else { assert s[i + 1] == w[0]; }
    }
    FixturesCopies(s, |u|);
    assert s[..|u|] == u && s[|u|..] == w;
  }

  lemma FixturesStep(s: string)
    requires s != "" && (s[0] == '$' && |s| > 1 ==> s[1] != '{')
    ensures Fixtures(s) == [s[0]] + Fixtures(s[1..])
  {
  }

  lemma FixturesPart(s: string, k: string, rest: string)
    requires Braceless(s) && ValidKey(k)
    ensures Fixtures(s + Placeholder(k) + rest) == s + "{fixture}" + Fixtures(rest)
  {
    var w := Placeholder(k) + rest;
    assert s + Placeholder(k) + rest == s + w;
    FixturesSkips(s, w);
    PlaceholderMeasured(k, rest);
    assert w[|k| + 3..] == rest;
    assert s + ("{fixture}" + Fixtures(rest)) == s + "{fixture}" + Fixtures(rest);
  }

  lemma PlaceholderMeasured(k: string, rest: string)
    requires ValidKey(k)
    ensures PlaceholderLength(Placeholder(k) + rest) == |k| + 3
  {
    var w := Placeholder(k) + rest;
    assert w[2..] == k + ("}" + rest);
    RunIs(KeyChars, k, "}" + rest);
  }

  lemma {:induction false} FixturesOfSource(t: Template)
    requires Plain(t)
    ensures Fixtures(Source(t)) == Shown(t)
  {
    match t
    case End(s) =>
      FixturesSkips(s, "");
      assert s + "" == s;
    case Slot(s, k, rest) =>
      FixturesOfSource(rest);
      FixturesPart(s, k, Source(rest));
  }

  lemma {:induction false} FirstGroupSkips(u: string, w: string)
    requires Braceless(u) && (w == "" || GroupLength(w) > 0)
    ensures FirstGroup(u + w) == |u|
  {
    if u == "" {
      assert u + w == w;
    } else {
      assert (u + w)[1..] == u[1..] + w;
      FirstGroupSkips(u[1..], w);
    }
  }

  lemma FixtureIsGroup(rest: string)
    ensures GroupLength("{fixture}" + rest) == 9
  {
    var w := "{fixture}" + rest;
    assert w[1..] == "fixture" + ("}" + rest);
    RunIs(GroupChars, "fixture", "}" + rest);
  }

  lemma PartsOfSlot(s: string, rest: string)
    requires Braceless(s)
    ensures Parts(s + "{fixture}" + rest) == [s, "{fixture}"] + Parts(rest)
  {
    var w := "{fixture}" + rest;
    var whole := s + "{fixture}" + rest;
    FixtureIsGroup(rest);
    assert whole == s + w;
    FirstGroupSkips(s, w);
    assert whole[..|s|] == s && whole[|s|..] == w;
    assert w[..9] == "{fixture}" && whole[|s| + 9..] == rest;
  }

  /** The pattern of a plain template: its texts with wildcards between. */
  lemma PatternOfSlot(s: string, rest: string)
    requires Braceless(s)
    ensures Pattern(s + "{fixture}" + rest) == Literal(s) + [Wild] + Pattern(rest)
  {
    PartsOfSlot(s, rest);
    TokensOfTwo(s, "{fixture}", Parts(rest));
    assert !IsWild(s);
  }

  lemma TokensOfTwo(a: string, b: string, rest: seq<string>)
    ensures Tokens([a, b] + rest) == PartTokens(a) + PartTokens(b) + Tokens(rest)
  {
    assert ([a, b] + rest)[1..] == [b] + rest && ([b] + rest)[1..] == rest;
    assert PartTokens(a) + (PartTokens(b) + Tokens(rest)) == PartTokens(a) + PartTokens(b) + Tokens(rest);
  }

  lemma PatternOfEnd(s: string)
    requires Braceless(s)
    ensures Pattern(s) == Literal(s)
  {
    FirstGroupSkips(s, "");
    assert s + "" == s && [s][1..] == [] && Tokens([]) == [];
    assert Tokens([s]) == PartTokens(s) + Tokens([s][1..]);
    assert Literal(s) + [] == Literal(s);
  }

  lemma {:induction false} LiteralMatches(m: Mode, s: string, p: seq<Token>, w: string)
    ensures Matches(m, Literal(s) + p, s + w) <==> Matches(m, p, w)
  {
    var q := Literal(s) + p;
    if s == "" {
      assert q == p && s + w == w;
    } else {
      assert q[1..] == Literal(s[1..]) + p && (s + w)[1..] == s[1..] + w;
      LiteralMatches(m, s[1..], p, w);
    }
  }

  lemma WildMatches(m: Mode, v: string, p: seq<Token>, w: string)
    requires Fits(m, v) && Matches(m, p, w)
    ensures Matches(m, [Wild] + p, v + w)
  {
    assert ([Wild] + p)[1..] == p && (v + w)[..|v|] == v && (v + w)[|v|..] == w;
  }

  lemma SlotMatches(s: string, v: string, p: seq<Token>, w: string)
    requires Fits(OfPath, v) && Matches(OfPath, p, w)
    ensures Matches(OfPath, Literal(s) + [Wild] + p, s + v + w)
  {
    WildMatches(OfPath, v, p, w);
    LiteralMatches(OfPath, s, [Wild] + p, v + w);
    assert Literal(s) + ([Wild] + p) == Literal(s) + [Wild] + p && s + (v + w) == s + v + w;
  }

  lemma TextMatchesItself(s: string)
    ensures Matches(OfPath, Literal(s), s)
  {
    LiteralMatches(OfPath, s, [], "");
    assert s + "" == s && Literal(s) + [] == Literal(s);
  }

  predicate Fillable(vars: Variables) { forall i :: 0 <= i < |vars| ==> Usable(vars[i].1) }

  lemma {:induction false} ValueFits(vars: Variables, key: string)
    requires Fillable(vars) && ValidKey(key)
    ensures Fits(OfPath, Value(vars, key))
  {
    if vars != [] && vars[0].0 != key { ValueFits(vars[1..], key); }
  }

  lemma {:induction false} FilledMatches(t: Template, vars: Variables)
    requires Plain(t) && Fillable(vars)
    ensures Matches(OfPath, Pattern(Shown(t)), Filled(t, vars))
    decreases t
  {
    match t
    case End(s) =>
      PatternOfEnd(s);
      TextMatchesItself(s);
    case Slot(s, k, rest) =>
      FilledMatches(rest, vars);
      PatternOfSlot(s, Shown(rest));
      ValueFits(vars, k);
      SlotMatches(s, Value(vars, k), Pattern(Shown(rest)), Filled(rest, vars));
  }

  lemma {:induction false} PlainIsQuiet(t: Template)
    requires Plain(t)
    ensures Quiet(t) && KeysValid(t)
  {
    if t.Slot? { PlainIsQuiet(t.rest); }
  }

  /** Substitution keeps a path within its template. */
  lemma SubstitutionIsAccepted(t: Template, vars: Variables)
    requires Plain(t) && "/" <= Source(t) && Admissible(vars) && (Safe(t) || NoBraceFirst(vars))
    ensures Substitute(Source(t), vars) == Filled(t, vars)
    ensures Accepts(Fixtures(Source(t)), Substitute(Source(t), vars))
  {
    PlainIsQuiet(t);
    SequentialIsSimultaneous(t, vars);
    FixturesOfSource(t);
    FilledMatches(t, vars);
  }

  /** The requests of an approved scenario pass its own allowlist after substitution. */
  lemma ApprovedRequestsPass(requests: seq<Operation>, i: nat, t: Template, vars: Variables)
    requires i < |requests| && requests[i].0 in METHODS && requests[i].1 == Source(t)
    requires Plain(t) && "/" <= Source(t) && Admissible(vars) && (Safe(t) || NoBraceFirst(vars))
    ensures OperationAllowed(requests[i].0, Substitute(Source(t), vars), Approved(requests))
  {
    SubstitutionIsAccepted(t, vars);
    assert requests[i] in requests;
    assert (requests[i].0, Fixtures(requests[i].1)) in Approved(requests);
  }

  // ---- When a dollar sign meets a value ---------------------------------------------------------------

  function Dollars(s: string): nat { if s == "" then 0 else (if s[0] == '$' then 1 else 0) + Dollars(s[1..]) }

  lemma {:induction false} DollarsAdd(a: string, b: string)
    ensures Dollars(a + b) == Dollars(a) + Dollars(b)
  {
    if a == "" {
      assert a + b == b;
    } else {
      assert (a + b)[1..] == a[1..] + b;
      DollarsAdd(a[1..], b);
    }
  }

  function LiteralDollars(p: seq<Token>): nat {
    if p == [] then 0 else (if p[0] == Char('$') then 1 else 0) + LiteralDollars(p[1..])
  }

  lemma {:induction false} LiteralDollarsAdd(s: string, p: seq<Token>)
    ensures LiteralDollars(Literal(s) + p) == Dollars(s) + LiteralDollars(p)
  {
    var q := Literal(s) + p;
    if s == "" {
      assert q == p;
    } else {
      assert q[1..] == Literal(s[1..]) + p;
      LiteralDollarsAdd(s[1..], p);
    }
  }

  /** A path that matches has at least the dollar signs of the literal text. */
  lemma {:induction false} MatchHasDollars(p: seq<Token>, s: string)
    requires Matches(OfPath, p, s)
    ensures Dollars(s) >= LiteralDollars(p)
  {
    if p != [] {
      match p[0]
      case Char(c) => MatchHasDollars(p[1..], s[1..]);
      case Wild =>
        var n :| 0 <= n <= |s| && Fits(OfPath, s[..n]) && Matches(OfPath, p[1..], s[n..]);
        MatchHasDollars(p[1..], s[n..]);
        assert s == s[..n] + s[n..];
        DollarsAdd(s[..n], s[n..]);
    }
  }

  function TextDollars(t: Template): nat { Dollars(t.text) + if t.Slot? then TextDollars(t.rest) else 0 }

  lemma {:induction false} PatternDollars(t: Template)
    requires Plain(t)
    ensures LiteralDollars(Pattern(Shown(t))) == TextDollars(t)
  {
    match t
    case End(s) =>
      PatternOfEnd(s);
      LiteralDollarsAdd(s, []);
      assert Literal(s) + [] == Literal(s);
    case Slot(s, k, rest) =>
      PatternDollars(rest);
      PatternOfSlot(s, Shown(rest));
      SlotDollars(s, Pattern(Shown(rest)));
  }

  lemma SlotDollars(s: string, p: seq<Token>)
    ensures LiteralDollars(Literal(s) + [Wild] + p) == Dollars(s) + LiteralDollars(p)
  {
    assert ([Wild] + p)[1..] == p && Literal(s) + ([Wild] + p) == Literal(s) + [Wild] + p;
    LiteralDollarsAdd(s, [Wild] + p);
  }

  /** Binding `key` to `{z}`: a dollar sign before the slot turns the value into a placeholder of z. */
  function Twist(t: Template, key: string, z: string): Template {
    match t
    case End(s) => t
    case Slot(s, k, rest) =>
      if k != key then Slot(s, k, Twist(rest, key, z))
      else if EndsInDollar(s) then Slot(s[..|s| - 1], z, Twist(rest, key, z))
      else Prepend(s + "{" + z + "}", Twist(rest, key, z))
  }

  lemma {:induction false} TwistIsBind(t: Template, key: string, z: string)
    ensures Source(Twist(t, key, z)) == Source(Bind(t, key, "{" + z + "}"))
  {
    if t.Slot? {
      var s, v := t.text, "{" + z + "}";
      TwistIsBind(t.rest, key, z);
      var tail := Source(Twist(t.rest, key, z));
      if t.key == key {
        PrependSource(s + v, Bind(t.rest, key, v));
        PrependSource(s + "{" + z + "}", Twist(t.rest, key, z));
        assert s + v == s + "{" + z + "}";
        if EndsInDollar(s) {
          assert s == s[..|s| - 1] + "$";
          assert s[..|s| - 1] + Placeholder(z) == s + v;
        }
      }
    }
  }

  lemma {:induction false} TwistIsQuiet(t: Template, key: string, z: string)
    requires Quiet(t) && KeysValid(t) && ValidKey(z)
    ensures Quiet(Twist(t, key, z)) && KeysValid(Twist(t, key, z))
  {
    if t.Slot? {
      TwistIsQuiet(t.rest, key, z);
      var s, v := t.text, "{" + z + "}";
      if t.key == key && !EndsInDollar(s) {
        assert forall i :: 0 <= i < |v| ==> v[i] != '$';
        CalmJoin(s, v);
        assert s + v == s + "{" + z + "}" && !EndsInDollar(s + v);
        CalmJoin(s + v, Twist(t.rest, key, z).text);
      }
    }
  }

  predicate Threatened(t: Template, key: string) {
    t.Slot? && ((t.key == key && EndsInDollar(t.text)) || Threatened(t.rest, key))
  }

  lemma {:induction false} ThreatenedKey(t: Template) returns (key: string)
    requires !Safe(t) && KeysValid(t)
    ensures Threatened(t, key) && ValidKey(key)
  {
    if EndsInDollar(t.text) { key := t.key; } else { key := ThreatenedKey(t.rest); }
  }

  lemma PrependDollars(u: string, t: Template)
    ensures TextDollars(Prepend(u, t)) == Dollars(u) + TextDollars(t)
  {
    DollarsAdd(u, t.text);
  }

  lemma {:induction false} NoDollars(s: string)
    requires '$' !in s
    ensures Dollars(s) == 0
  {
    if s != "" { NoDollars(s[1..]); }
  }

  lemma {:induction false} TwistLosesDollars(t: Template, key: string, z: string)
    requires ValidKey(z)
    ensures TextDollars(Twist(t, key, z)) <= TextDollars(t)
    ensures Threatened(t, key) ==> TextDollars(Twist(t, key, z)) < TextDollars(t)
  {
    if t.Slot? {
      TwistLosesDollars(t.rest, key, z);
      var s, v := t.text, "{" + z + "}";
      if t.key == key {
        if EndsInDollar(s) {
          assert s == s[..|s| - 1] + "$";
          DollarsAdd(s[..|s| - 1], "$");
          assert "$"[1..] == "";
        } else {
          NoDollars(v);
          DollarsAdd(s, v);
          assert s + v == s + "{" + z + "}";
          PrependDollars(s + v, Twist(t.rest, key, z));
        }
      }
    }
  }

  /** Each key once, the first ones given. */
  function Keys(t: Template, seen: seq<string>): seq<string>
    decreases t
  {
    match t
    case End(_) => seen
    case Slot(_, k, rest) => Keys(rest, if k in seen then seen else seen + [k])
  }

  predicate AllBound(t: Template, vars: Variables) {
    t.Slot? ==> Lookup(vars, t.key) == Some("x") && AllBound(t.rest, vars)
  }

  function AllX(keys: seq<string>): (vars: Variables)
    ensures |vars| == |keys| && forall i :: 0 <= i < |keys| ==> vars[i] == (keys[i], "x")
  {
    seq(|keys|, i requires 0 <= i < |keys| => (keys[i], "x"))
  }

  predicate DistinctKeys(keys: seq<string>) {
    (forall i, j :: 0 <= i < j < |keys| ==> keys[i] != keys[j]) && forall i :: 0 <= i < |keys| ==> ValidKey(keys[i])
  }

  lemma {:induction false} KeysAreDistinct(t: Template, seen: seq<string>)
    requires DistinctKeys(seen) && KeysValid(t)
    ensures DistinctKeys(Keys(t, seen)) && seen <= Keys(t, seen)
    decreases t
  {
    if t.Slot? { KeysAreDistinct(t.rest, if t.key in seen then seen else seen + [t.key]); }
  }

  lemma {:induction false} KeysAreFound(t: Template, seen: seq<string>, vars: Variables)
    requires DistinctKeys(seen) && KeysValid(t) && forall k :: k in Keys(t, seen) ==> Lookup(vars, k) == Some("x")
    ensures AllBound(t, vars)
    decreases t
  {
    if t.Slot? {
      var more := if t.key in seen then seen else seen + [t.key];
      KeysAreDistinct(t.rest, more);
      assert t.key in more && more <= Keys(t, seen);
      KeysAreFound(t.rest, more, vars);
    }
  }

  lemma {:induction false} LookupX(keys: seq<string>, k: string)
    requires k in keys
    ensures Lookup(AllX(keys), k) == Some("x")
  {
    if keys[0] != k {
      assert AllX(keys)[1..] == AllX(keys[1..]);
      LookupX(keys[1..], k);
    }
  }

  lemma {:induction false} FilledDollars(t: Template, vars: Variables)
    requires AllBound(t, vars)
    ensures Dollars(Filled(t, vars)) == TextDollars(t)
    decreases t
  {
    if t.Slot? {
      FilledDollars(t.rest, vars);
      NoDollars("x");
      DollarsAdd(t.text, "x");
      DollarsAdd(t.text + "x", Filled(t.rest, vars));
    }
  }

  lemma FewerDollarsRejected(t: Template, path: string)
    requires Plain(t) && Dollars(path) < TextDollars(t)
    ensures !Accepts(Shown(t), path)
  {
    PatternDollars(t);
    var p := Pattern(Shown(t));
    if Matches(OfPath, p, path) { MatchHasDollars(p, path); }
    if path != "" {
      var init := path[..|path| - 1];
      assert path == init + [path[|path| - 1]];
      DollarsAdd(init, [path[|path| - 1]]);
      if Matches(OfPath, p, init) { MatchHasDollars(p, init); }
    }
  }

  /** The variables that defeat a template with a dollar sign before the slot of `key`. */
  function Defeat(t: Template, key: string): Variables {
    var z := if key == "a" then "b" else "a";
    [(key, "{" + z + "}")] + AllX(Keys(Twist(t, key, z), [z]))
  }

  lemma {:induction false} KeyIsGone(t: Template, key: string, z: string, seen: seq<string>)
    requires key != z && key !in seen
    ensures key !in Keys(Twist(t, key, z), seen)
    decreases t
  {
    match t
    case End(_) =>
    case Slot(s, k, rest) =>
      if k != key {
        KeyIsGone(rest, key, z, if k in seen then seen else seen + [k]);
      } else if EndsInDollar(s) {
        KeyIsGone(rest, key, z, if z in seen then seen else seen + [z]);
      } else {
        KeyIsGone(rest, key, z, seen);
        PrependKeys(s + "{" + z + "}", Twist(rest, key, z), seen);
      }
  }

  lemma PrependKeys(u: string, t: Template, seen: seq<string>)
    ensures Keys(Prepend(u, t), seen) == Keys(t, seen)
  {
  }

  lemma DefeatIsAdmissible(t: Template, key: string)
    requires Plain(t) && ValidKey(key)
    ensures Admissible(Defeat(t, key))
  {
    var z := if key == "a" then "b" else "a";
    PlainIsQuiet(t);
    TwistIsQuiet(t, key, z);
    KeysAreDistinct(Twist(t, key, z), [z]);
    KeyIsGone(t, key, z, [z]);
    var keys := Keys(Twist(t, key, z), [z]);
    assert forall i :: 0 <= i < |keys| ==> keys[i] in keys;
    var v := "{" + z + "}";
    assert Usable(v) && Usable("x");
  }

  lemma DefeatSucceeds(t: Template, key: string)
    requires Plain(t) && "/" <= Source(t) && Threatened(t, key) && ValidKey(key)
    ensures !Accepts(Fixtures(Source(t)), Substitute(Source(t), Defeat(t, key)))
  {
    var z := if key == "a" then "b" else "a";
    var vars, keys := Defeat(t, key), Keys(Twist(t, key, z), [z]);
    var twisted := Twist(t, key, z);
    DefeatIsAdmissible(t, key);
    PlainIsQuiet(t);
    ReplaceBinds(t, key, "{" + z + "}");
    TwistIsBind(t, key, z);
    TwistIsQuiet(t, key, z);
    assert vars[1..] == AllX(keys);
    SequentialIsSimultaneous(twisted, AllX(keys));
    assert Substitute(Source(t), vars) == Filled(twisted, AllX(keys));
    forall k | k in keys ensures Lookup(AllX(keys), k) == Some("x") { LookupX(keys, k); }
    KeysAreFound(twisted, [z], AllX(keys));
    FilledDollars(twisted, AllX(keys));
    TwistLosesDollars(t, key, z);
    FixturesOfSource(t);
    FewerDollarsRejected(t, Substitute(Source(t), vars));
  }

  /** A template agrees with the allowlist for all usable values exactly when no placeholder follows
      a literal dollar sign. */
  lemma AgreementIffSafe(t: Template)
    requires Plain(t) && "/" <= Source(t)
    ensures (forall vars :: Admissible(vars) ==> Accepts(Fixtures(Source(t)), Substitute(Source(t), vars))) <==> Safe(t)
  {
    if Safe(t) {
      forall vars | Admissible(vars) ensures Accepts(Fixtures(Source(t)), Substitute(Source(t), vars)) {
        SubstitutionIsAccepted(t, vars);
      }
    } else {
      PlainIsQuiet(t);
      var key := ThreatenedKey(t);
      DefeatIsAdmissible(t, key);
      DefeatSucceeds(t, key);
    }
  }

  // ---- What an accepted path must look like -----------------------------------------------------------

  function Slashes(s: string): nat { if s == "" then 0 else (if s[0] == '/' then 1 else 0) + Slashes(s[1..]) }

  function FirstSlash(s: string): (k: nat)
    ensures k <= |s| && (k < |s| ==> s[k] == '/')
  {
    if s == "" || s[0] == '/' then 0 else 1 + FirstSlash(s[1..])
  }

  function FirstSlashToken(p: seq<Token>): (k: nat)
    ensures k <= |p| && (k < |p| ==> p[k] == Char('/'))
  {
    if p == [] || p[0] == Char('/') then 0 else 1 + FirstSlashToken(p[1..])
  }

  /** `s.split("/")`. */
  function Segments(s: string): seq<string>
    decreases |s|
  {
    var k := FirstSlash(s);
    if k == |s| then [s] else [s[..k]] + Segments(s[k + 1..])
  }

  function TokenSegments(p: seq<Token>): seq<seq<Token>>
    decreases |p|
  {
    var k := FirstSlashToken(p);
    if k == |p| then [p] else [p[..k]] + TokenSegments(p[k + 1..])
  }

  lemma {:induction false} FirstSlashSkips(u: string, w: string)
    requires '/' !in u
    ensures FirstSlash(u + w) == |u| + FirstSlash(w)
  {
    if u == "" {
      assert u + w == w;
    } else {
      assert (u + w)[1..] == u[1..] + w;
      FirstSlashSkips(u[1..], w);
    }
  }

  ghost predicate FirstSegmentsMatch(m: Mode, p: seq<Token>, s: string) {
    var j, k := FirstSlashToken(p), FirstSlash(s);
    && (j < |p| <==> k < |s|) && Matches(m, p[..j], s[..k])
    && (j < |p| && k < |s| ==> Matches(m, p[j + 1..], s[k + 1..]))
  }

  lemma {:induction false} MatchSplits(m: Mode, p: seq<Token>, s: string)
    requires Matches(m, p, s)
    ensures FirstSegmentsMatch(m, p, s)
  {
    if p != [] && p[0] != Char('/') {
      match p[0]
      case Char(c) =>
        MatchSplits(m, p[1..], s[1..]);
        CharPrepends(m, p, s);
      case Wild =>
        var n :| 0 <= n <= |s| && Fits(m, s[..n]) && Matches(m, p[1..], s[n..]);
        MatchSplits(m, p[1..], s[n..]);
        WildPrepends(m, p, s, n);
    }
  }

  lemma CharPrepends(m: Mode, p: seq<Token>, s: string)
    requires p != [] && s != "" && p[0] == Char(s[0]) && s[0] != '/' && FirstSegmentsMatch(m, p[1..], s[1..])
    ensures FirstSegmentsMatch(m, p, s)
  {
    var j, k := FirstSlashToken(p[1..]), FirstSlash(s[1..]);
    assert p[..j + 1][1..] == p[1..][..j] && s[..k + 1][1..] == s[1..][..k];
    assert j < |p| - 1 ==> p[1..][j + 1..] == p[j + 2..];
    assert k < |s| - 1 ==> s[1..][k + 1..] == s[k + 2..];
  }

  lemma FirstSlashAfter(s: string, n: nat)
    requires n <= |s| && '/' !in s[..n]
    ensures FirstSlash(s) == n + FirstSlash(s[n..])
  {
    assert s == s[..n] + s[n..];
    FirstSlashSkips(s[..n], s[n..]);
  }

  lemma WildPrepends(m: Mode, p: seq<Token>, s: string, n: nat)
    requires p != [] && p[0] == Wild && n <= |s| && Fits(m, s[..n]) && FirstSegmentsMatch(m, p[1..], s[n..])
    ensures FirstSegmentsMatch(m, p, s)
  {
    var j, k := FirstSlashToken(p[1..]), FirstSlash(s[n..]);
    FirstSlashAfter(s, n);
    assert p[..j + 1][1..] == p[1..][..j] && s[..n + k][n..] == s[n..][..k] && s[..n + k][..n] == s[..n];
    assert j < |p| - 1 ==> p[1..][j + 1..] == p[j + 2..];
    assert k < |s| - n ==> s[n..][k + 1..] == s[n + k + 1..];
  }

  ghost predicate AllMatch(m: Mode, ps: seq<seq<Token>>, ss: seq<string>) {
    |ps| == |ss| && forall i :: 0 <= i < |ss| ==> Matches(m, ps[i], ss[i])
  }

  lemma AllMatchPrepend(m: Mode, p: seq<Token>, ps: seq<seq<Token>>, s: string, ss: seq<string>)
    requires Matches(m, p, s) && AllMatch(m, ps, ss)
    ensures AllMatch(m, [p] + ps, [s] + ss)
  {
  }

  /** A match is a match segment by segment. */
  lemma {:induction false} MatchIsSegmentwise(m: Mode, p: seq<Token>, s: string)
    requires Matches(m, p, s)
    ensures AllMatch(m, TokenSegments(p), Segments(s))
    decreases |p|
  {
    MatchSplits(m, p, s);
    var j, k := FirstSlashToken(p), FirstSlash(s);
    if j < |p| {
      MatchIsSegmentwise(m, p[j + 1..], s[k + 1..]);
      AllMatchPrepend(m, p[..j], TokenSegments(p[j + 1..]), s[..k], Segments(s[k + 1..]));
    } else {
      assert p[..j] == p && s[..k] == s;
    }
  }

  lemma {:induction false} LiteralSegment(m: Mode, p: seq<Token>, s: string)
    requires Matches(m, p, s) && Wild !in p
    ensures p == Literal(s)
  {
    if p != [] { LiteralSegment(m, p[1..], s[1..]); }
  }

  /** No part that acts as a wildcard holds a slash.  Groups never do; a text part does when it
      starts with a brace that opens no group. */
  predicate Regular(template: string) { forall i :: 0 <= i < |Parts(template)| ==> RegularPart(Parts(template)[i]) }

  predicate RegularPart(part: string) { IsWild(part) ==> '/' !in part }

  /** A regular template matches its own pattern, each wildcard standing for the part it came from. */
  lemma {:induction false} PartsMatchTokens(parts: seq<string>)
    requires forall i :: 0 <= i < |parts| ==> RegularPart(parts[i])
    ensures Matches(OfTemplate, Tokens(parts), Concat(parts))
  {
    if parts != [] {
      var part, rest := parts[0], parts[1..];
      PartsMatchTokens(rest);
      if IsWild(part) {
        WildMatches(OfTemplate, part, Tokens(rest), Concat(rest));
      } else {
        LiteralMatches(OfTemplate, part, Tokens(rest), Concat(rest));
      }
    }
  }

  lemma {:induction false} WildShowsBrace(p: seq<Token>, s: string)
    requires Matches(OfTemplate, p, s)
    ensures Wild in p ==> '{' in s
  {
    if p != [] {
      match p[0]
      case Char(c) => WildShowsBrace(p[1..], s[1..]);
      case Wild =>
        var n :| 0 <= n <= |s| && Fits(OfTemplate, s[..n]) && Matches(OfTemplate, p[1..], s[n..]);
        assert s[..n][0] in s;
    }
  }

  /** The part of the path that the pattern reads: all of it, or all but a final newline. */
  function Core(template: string, path: string): string
    requires Accepts(template, path)
  {
    if Matches(OfPath, Pattern(template), path) then path else path[..|path| - 1]
  }

  /** The path has as many segments as the template, and those that are literal in the template are
      the same in the path. */
  ghost predicate Follows(template: string, path: string)
    requires Accepts(template, path)
  {
    var own, read := Segments(template), Segments(Core(template, path));
    |read| == |own| && forall i :: 0 <= i < |own| && '{' !in own[i] ==> read[i] == own[i]
  }

  lemma AcceptedPathFollowsTemplate(template: string, path: string)
    requires Accepts(template, path) && Regular(template)
    ensures Follows(template, path)
  {
    var p, core := Pattern(template), Core(template, path);
    PartsMatchTokens(Parts(template));
    PartsConcat(template);
    MatchIsSegmentwise(OfTemplate, p, template);
    MatchIsSegmentwise(OfPath, p, core);
    forall i | 0 <= i < |Segments(template)| && '{' !in Segments(template)[i]
      ensures Segments(core)[i] == Segments(template)[i]
    {
      var tokens := TokenSegments(p)[i];
      WildShowsBrace(tokens, Segments(template)[i]);
      LiteralSegment(OfTemplate, tokens, Segments(template)[i]);
      LiteralSegment(OfPath, tokens, Segments(core)[i]);
      LiteralIsInjective(Segments(template)[i], Segments(core)[i]);
    }
  }

  lemma LiteralIsInjective(a: string, b: string)
    requires Literal(a) == Literal(b)
    ensures a == b
  {
    forall i | 0 <= i < |a| ensures a[i] == b[i] {
      assert Literal(a)[i] == Char(a[i]) && Literal(b)[i] == Char(b[i]);
    }
  }

  /** Every allowed operation is accepted by an entry with the same method, and follows it when that
      entry is regular. */
  lemma AllowedFollowsSome(httpMethod: string, path: string, operations: set<Operation>)
    requires OperationAllowed(httpMethod, path, operations)
    ensures exists op :: op in operations && op.0 == httpMethod && Accepts(op.1, path)
              && (Regular(op.1) ==> Follows(op.1, path))
  {
    var op :| op in operations && op.0 == httpMethod && Accepts(op.1, path);
    if Regular(op.1) { AcceptedPathFollowsTemplate(op.1, path); }
  }

  lemma {:induction false} SlashesAdd(a: string, b: string)
    ensures Slashes(a + b) == Slashes(a) + Slashes(b)
  {
    if a == "" {
      assert a + b == b;
    } else {
      assert (a + b)[1..] == a[1..] + b;
      SlashesAdd(a[1..], b);
    }
  }

  lemma {:induction false} NoSlashes(s: string)
    ensures Slashes(s) == 0 <==> '/' !in s
  {
    if s != "" {
      NoSlashes(s[1..]);
      assert s == [s[0]] + s[1..];
    }
  }

  function LiteralSlashes(p: seq<Token>): nat {
    if p == [] then 0 else (if p[0] == Char('/') then 1 else 0) + LiteralSlashes(p[1..])
  }

  lemma {:induction false} MatchSlashes(p: seq<Token>, s: string)
    requires Matches(OfPath, p, s)
    ensures Slashes(s) == LiteralSlashes(p)
  {
    if p != [] {
      match p[0]
      case Char(c) => MatchSlashes(p[1..], s[1..]);
      case Wild =>
        var n :| 0 <= n <= |s| && Fits(OfPath, s[..n]) && Matches(OfPath, p[1..], s[n..]);
        MatchSlashes(p[1..], s[n..]);
        assert s == s[..n] + s[n..];
        NoSlashes(s[..n]);
        SlashesAdd(s[..n], s[n..]);
    }
  }

  lemma {:induction false} TextSlashes(s: string, p: seq<Token>)
    ensures LiteralSlashes(Literal(s) + p) == Slashes(s) + LiteralSlashes(p)
  {
    var q := Literal(s) + p;
    if s == "" {
      assert q == p;
    } else {
      assert q[1..] == Literal(s[1..]) + p;
      TextSlashes(s[1..], p);
    }
  }

  lemma {:induction false} PartSlashes(parts: seq<string>)
    ensures LiteralSlashes(Tokens(parts)) <= Slashes(Concat(parts))
    ensures LiteralSlashes(Tokens(parts)) == Slashes(Concat(parts))
            <==> forall i :: 0 <= i < |parts| ==> RegularPart(parts[i])
  {
    if parts != [] {
      var part, rest := parts[0], parts[1..];
      PartSlashes(rest);
      SlashesAdd(part, Concat(rest));
      NoSlashes(part);
      assert (forall i :: 0 <= i < |parts| ==> RegularPart(parts[i]))
        <==> RegularPart(part) && forall i :: 0 <= i < |rest| ==> RegularPart(rest[i]) by {
        assert forall i :: 0 < i < |parts| ==> parts[i] == rest[i - 1];
      }
      if IsWild(part) {
        assert ([Wild] + Tokens(rest))[1..] == Tokens(rest);
      } else {
        TextSlashes(part, Tokens(rest));
      }
    }
  }

  /** The slash counts of an accepted path and its template agree exactly for regular templates. */
  lemma SlashesAgreeIffRegular(template: string, path: string)
    requires Accepts(template, path)
    ensures Slashes(path) <= Slashes(template)
    ensures Slashes(path) == Slashes(template) <==> Regular(template)
  {
    MatchSlashes(Pattern(template), Core(template, path));
    PartSlashes(Parts(template));
    PartsConcat(template);
    CoreSlashes(template, path);
  }

  lemma CoreSlashes(template: string, path: string)
    requires Accepts(template, path)
    ensures Slashes(Core(template, path)) == Slashes(path)
  {
    var core := Core(template, path);
    assert core != path ==> path == core + "\n";
    NoSlashes("\n");
    SlashesAdd(core, "\n");
  }

  /** A template whose text behind the slot begins with a brace that opens no group. */
  function Irregular(): string { "/" + "{fixture}" + "{/x" }

  lemma TailIsOnePart()
    ensures Parts("{/x") == ["{/x"] && Pattern("{/x") == [Wild]
  {
    var u := "{/x";
    assert u[1..] == "" + "/x";
    RunIs(GroupChars, "", "/x");
    assert u[1..][1..][1..] == "";
    assert FirstGroup(u[1..][1..]) == 1 && FirstGroup(u[1..]) == 2 && FirstGroup(u) == 3;
    TokensOfOne(u);
  }

  lemma TokensOfOne(part: string)
    ensures Tokens([part]) == PartTokens(part)
  {
    assert [part][1..] == [] && PartTokens(part) + [] == PartTokens(part);
  }

  lemma IrregularMatch()
    ensures Matches(OfPath, Literal("/") + [Wild] + [Wild], "/ab")
  {
    WildMatches(OfPath, "b", [], "");
    assert [Wild] + [] == [Wild] && "b" + "" == "b";
    SlotMatches("/", "a", [Wild], "b");
    assert "/" + "a" + "b" == "/ab";
  }

  /** That text becomes a wildcard, and a slash is lost. */
  lemma IrregularTemplateLosesASlash()
    ensures Accepts(Irregular(), "/ab") && !Regular(Irregular()) && Slashes("/ab") < Slashes(Irregular())
  {
    TailIsOnePart();
    PatternOfSlot("/", "{/x");
    IrregularMatch();
    PartsOfSlot("/", "{/x");
    IrregularPart(Parts(Irregular()));
    SlashesAgreeIffRegular(Irregular(), "/ab");
  }

  lemma IrregularPart(parts: seq<string>)
    requires parts == ["/", "{fixture}"] + ["{/x"]
    ensures !forall i :: 0 <= i < |parts| ==> RegularPart(parts[i])
  {
    assert parts[2] == "{/x" && "{/x"[1] == '/';
    assert !RegularPart(parts[2]);
  }
}
