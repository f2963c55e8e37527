/** Sentence-level citations (citation.py): splitting an answer into sentences, reading the
    reference numbers of a sentence, tracing the evidence and adding the missing references. */
module Citation {
  import opened Prelude
  import opened Text

  // ---- Characters and strings -----------------------------------------------------------------

  /** The sentence-ending characters of the split pattern, which lists the full-width exclamation
      mark twice and the ASCII one not at all. */
  predicate IsEnd(c: char) { c == '\U{3002}' || c == '\U{FF01}' || c == '\U{FF1F}' || c == '?' || c == '.' }

  /** The characters before which a tag goes: the same ones and the ASCII exclamation mark. */
  predicate IsStop(c: char) { IsEnd(c) || c == '!' }

  /** Both sets by code point: the full-width stop, exclamation and question mark, the ASCII question mark
      and stop, and for tags also the ASCII exclamation mark. */
  lemma EndsAre(c: char)
    ensures var n := c as int; IsEnd(c) <==> n == 12290 || n == 65281 || n == 65311 || n == 63 || n == 46
    ensures var n := c as int;
            IsStop(c) <==> n == 12290 || n == 65281 || n == 65311 || n == 63 || n == 46 || n == 33
  {
    var ends := ['\U{3002}', '\U{FF01}', '\U{FF1F}', '?', '.', '!'];
    assert forall i :: 0 <= i < |ends| && ends[i] as int == c as int ==> ends[i] == c;
    assert ends[0] as int == 12290 && ends[1] as int == 65281 && ends[2] as int == 65311;
    assert ends[3] as int == 63 && ends[4] as int == 46 && ends[5] as int == 33;
  }

  function Join(parts: seq<string>): string { if parts == [] then "" else parts[0] + Join(parts[1..]) }

  // ---- Sentences ---------------------------------------------------------------------------

  /** The position of the first sentence end; the length when there is none. */
  function FirstEnd(s: string): (k: nat)
    ensures k <= |s| && (k < |s| ==> IsEnd(s[k]))
    ensures forall i :: 0 <= i < k ==> !IsEnd(s[i])
  {
    if s == "" || IsEnd(s[0]) then 0 else 1 + FirstEnd(s[1..])
  }

  /** `re.split` on the empty string, or run of blanks, that follows a sentence end. */
  function SplitParts(text: string): seq<string>
    decreases |text|
  {
    var k := FirstEnd(text);
    if k == |text| then [text] else [text[..k + 1]] + SplitParts(Lead(text[k + 1..]))
  }

  function NonBlank(parts: seq<string>): seq<string> {
    if parts == [] then []
    else (if Strip(parts[0]) != "" then [Strip(parts[0])] else []) + NonBlank(parts[1..])
  }

  function SplitSentences(text: string): seq<string> { NonBlank(SplitParts(text)) }

  /** A stripped piece of text with no sentence end except possibly its last character. */
  ghost predicate IsSentence(s: string) {
    && s != "" && !IsSpace(s[0]) && !IsSpace(s[|s| - 1])
    && forall i :: 0 <= i < |s| - 1 ==> !IsEnd(s[i])
  }

  predicate Complete(s: string) { s != "" && IsEnd(s[|s| - 1]) }

  /** What a split yields: sentences of which only the last may lack its end. */
  ghost predicate Sentences(list: seq<string>) {
    && (forall i :: 0 <= i < |list| ==> IsSentence(list[i]))
    && (forall i :: 0 <= i < |list| - 1 ==> Complete(list[i]))
  }

  lemma {:induction false} LeadIsSuffix(s: string)
    ensures Lead(s) == s[|s| - |Lead(s)|..]
  {
    if s != "" && IsSpace(s[0]) { LeadIsSuffix(s[1..]); }
  }

  lemma StripPart(p: string)
    requires forall i :: 0 <= i < |p| - 1 ==> !IsEnd(p[i])
    ensures Strip(p) != "" ==> IsSentence(Strip(p))
    ensures Complete(p) ==> Strip(p) != "" && Complete(Strip(p))
  {
    LeadIsSuffix(p);
    var l := Lead(p);
    if Complete(p) { EndSurvivesLead(p); }
    assert forall i :: 0 <= i < |l| - 1 ==> !IsEnd(l[i]);
  }

  lemma {:induction false} EndSurvivesLead(p: string)
    requires Complete(p)
    ensures Lead(p) != "" && Complete(Lead(p))
  {
    if IsSpace(p[0]) { EndSurvivesLead(p[1..]); }
  }

  lemma {:induction false} SplitYieldsSentences(text: string)
    ensures Sentences(SplitSentences(text))
    decreases |text|
  {
    var k := FirstEnd(text);
    if k == |text| {
      StripPart(text);
      assert NonBlank([text][1..]) == [];
    } else {
      var part := text[..k + 1];
      var rest := Lead(text[k + 1..]);
      StripPart(part);
      SplitYieldsSentences(rest);
      assert SplitParts(text)[1..] == SplitParts(rest);
      assert SplitSentences(text) == [Strip(part)] + SplitSentences(rest);
    }
  }

  /** Joining sentences and splitting again gives the same sentences. */
  lemma {:induction false} SplitOfJoin(list: seq<string>)
    requires Sentences(list)
    ensures SplitSentences(Join(list)) == list
    decreases |list|
  {
    if list == [] {
      assert SplitParts("") == [""];
      assert NonBlank([""][1..]) == [];
    } else {
      var s, rest := list[0], Join(list[1..]);
      assert IsSentence(s);
      if Complete(s) {
        assert list[1..] != [] ==> IsSentence(list[1..][0]) && rest[0] == list[1..][0][0];
        assert Lead(rest) == rest;
        assert forall i :: 0 <= i < |list| - 1 ==> list[1..][i] == list[i + 1];
        SplitOfJoin(list[1..]);
        SplitAtSentence(s, rest);
        assert [s] + list[1..] == list;
      } else {
        assert list == [s] && rest == "" && s + rest == s;
        LastIsSplit(s);
      }
    }
  }

  lemma SplitAtSentence(s: string, rest: string)
    requires IsSentence(s) && Complete(s) && Lead(rest) == rest
    ensures SplitSentences(s + rest) == [s] + SplitSentences(rest)
  {
    var text := s + rest;
    FirstEndIs(text, |s| - 1);
    assert text[..|s|] == s && text[|s|..] == rest && Strip(s) == s;
    assert SplitParts(text) == [s] + SplitParts(rest);
    assert SplitParts(text)[1..] == SplitParts(rest);
  }

  lemma LastIsSplit(s: string)
    requires IsSentence(s) && !Complete(s)
    ensures SplitSentences(s) == [s]
  {
    FirstEndIs(s, |s|);
    assert NonBlank([s][1..]) == [] && Strip(s) == s;
  }

  lemma {:induction false} FirstEndIs(s: string, k: nat)
    requires k <= |s| && (forall i :: 0 <= i < k ==> !IsEnd(s[i])) && (k < |s| ==> IsEnd(s[k]))
    ensures FirstEnd(s) == k
  {
    if k > 0 { FirstEndIs(s[1..], k - 1); }
  }

  /** The characters that are not blank. */
  function Ink(s: string): string {
    if s == "" then "" else (if IsSpace(s[0]) then "" else [s[0]]) + Ink(s[1..])
  }

  lemma {:induction false} InkOfConcat(a: string, b: string)
    ensures Ink(a + b) == Ink(a) + Ink(b)
  {
    if a == "" {
      assert a + b == b;
    } else {
      assert (a + b)[0] == a[0] && (a + b)[1..] == a[1..] + b;
      InkOfConcat(a[1..], b);
    }
  }

  lemma {:induction false} InkOfLead(s: string)
    ensures Ink(Lead(s)) == Ink(s)
  {
    if s != "" && IsSpace(s[0]) { InkOfLead(s[1..]); }
  }

  lemma {:induction false} InkOfTrail(s: string)
    ensures Ink(Trail(s)) == Ink(s)
    decreases |s|
  {
    if s != "" && IsSpace(s[|s| - 1]) {
      InkOfTrail(s[..|s| - 1]);
      InkOfConcat(s[..|s| - 1], [s[|s| - 1]]);
      assert s[..|s| - 1] + [s[|s| - 1]] == s;
    }
  }

  lemma {:induction false} NonBlankKeepsInk(parts: seq<string>)
    ensures Ink(Join(NonBlank(parts))) == Ink(Join(parts))
  {
    if parts != [] {
      var first, rest := Strip(parts[0]), NonBlank(parts[1..]);
      NonBlankKeepsInk(parts[1..]);
      InkOfLead(parts[0]);
      InkOfTrail(Lead(parts[0]));
      InkOfConcat(parts[0], Join(parts[1..]));
      if first != "" {
        assert NonBlank(parts) == [first] + rest && (([first] + rest)[1..]) == rest;
        InkOfConcat(first, Join(rest));
      } else {
        assert NonBlank(parts) == rest && Ink(first) == "";
      }
    }
  }

  lemma {:induction false} SplitPartsKeepInk(text: string)
    ensures Ink(Join(SplitParts(text))) == Ink(text)
    decreases |text|
  {
    var k := FirstEnd(text);
    if k == |text| {
      assert Join([text]) == text + "" == text;
    } else {
      var part, rest := text[..k + 1], text[k + 1..];
      SplitPartsKeepInk(Lead(rest));
      InkOfLead(rest);
      InkOfConcat(part, rest);
      assert part + rest == text;
      assert SplitParts(text)[1..] == SplitParts(Lead(rest));
      InkOfConcat(part, Join(SplitParts(Lead(rest))));
    }
  }

  /** Splitting drops blanks and nothing else: the sentences together hold every other character
      of the text, in order. */
  lemma SplitKeepsInk(text: string)
    ensures Ink(Join(SplitSentences(text))) == Ink(text)
  {
    NonBlankKeepsInk(SplitParts(text));
    SplitPartsKeepInk(text);
  }

  // ---- Reference numbers ------------------------------------------------------------------------

  function DigitRun(s: string): (n: nat)
    ensures n <= |s| && (forall i :: 0 <= i < n ==> IsDigit(s[i])) && (n < |s| ==> !IsDigit(s[n]))
  {
    if s != "" && IsDigit(s[0]) then 1 + DigitRun(s[1..]) else 0
  }

  /** What follows the digits at the start of a string; Other also when there are none. */
  datatype Mark = Closing | Comma | Other

  function After(s: string): (m: Mark)
    ensures !m.Other? ==> 0 < DigitRun(s) < |s|
  {
    var n := DigitRun(s);
    if n == 0 || n == |s| then Other
    else if s[n] == ']' then Closing else if s[n] == ',' then Comma else Other
  }

  function Number(s: string): nat { Value(s[..DigitRun(s)]) }

  /** What is left after the comma and the blanks behind it. */
  function Rest(s: string): (r: string)
    requires After(s).Comma?
    ensures |r| < |s|
  {
    Lead(s[DigitRun(s) + 1..])
  }

  /** Reads `n(, n)*]` at the start of `s`: how many characters, and the numbers. */
  function Group(s: string): (r: Option<(nat, seq<nat>)>)
    ensures r.Some? ==> 0 < r.value.0 <= |s| && r.value.1 != []
    decreases |s|
  {
    match After(s)
    case Other => None
    case Closing => Some((DigitRun(s) + 1, [Number(s)]))
    case Comma => Further(|s| - |Rest(s)|, Number(s), Group(Rest(s)))
  }

  /** One more number, `skipped` characters before the group that was read. */
  function Further(skipped: int, n: nat, r: Option<(nat, seq<nat>)>): Option<(nat, seq<nat>)>
    requires skipped > 0
  {
    if r.Some? then Some((skipped + r.value.0, [n] + r.value.1)) else None
  }

  /** `extract_sentence_sources`: the numbers of all bracketed groups, left to right. */
  function Extract(s: string): seq<nat> {
    if s == "" then []
    else if s[0] == '[' && Group(s[1..]).Some? then
      var g := Group(s[1..]).value;
      g.1 + Extract(s[1 + g.0..])
    else Extract(s[1..])
  }

  function Tag(k: nat): string { "[" + Decimal(k) + "]" }

  lemma {:induction false} DigitRunIs(s: string, n: nat)
    requires n <= |s| && (forall i :: 0 <= i < n ==> IsDigit(s[i])) && (n < |s| ==> !IsDigit(s[n]))
    ensures DigitRun(s) == n
  {
    if n > 0 { DigitRunIs(s[1..], n - 1); }
  }

  lemma {:induction false} LeadOfConcat(a: string, b: string)
    requires Lead(a) != ""
    ensures Lead(a + b) == Lead(a) + b
  {
    assert (a + b)[0] == a[0];
    if IsSpace(a[0]) {
      assert (a + b)[1..] == a[1..] + b;
      LeadOfConcat(a[1..], b);
    }
  }

  lemma {:induction false} LeadAllBlank(a: string, b: string)
    requires Lead(a) == ""
    ensures Lead(a + b) == Lead(b)
  {
    if a == "" {
      assert a + b == b;
    } else {
      assert (a + b)[1..] == a[1..] + b;
      LeadAllBlank(a[1..], b);
    }
  }

  /** Text behind the digits and their mark does not change how they are read. */
  lemma SameStart(x: string, z: string)
    requires !After(x).Other?
    ensures After(x + z) == After(x) && Number(x + z) == Number(x) && DigitRun(x + z) == DigitRun(x)
    ensures After(x).Comma? && Rest(x) != "" ==> Rest(x + z) == Rest(x) + z
    ensures After(x).Comma? && Rest(x) == "" ==> Rest(x + z) == Lead(z)
  {
    var n := DigitRun(x);
    DigitRunIs(x + z, n);
    assert (x + z)[..n] == x[..n] && (x + z)[n] == x[n];
    var tail := x[n + 1..];
    assert (x + z)[n + 1..] == tail + z;
    if Lead(tail) != "" { LeadOfConcat(tail, z); } else { LeadAllBlank(tail, z); }
  }

  /** Reading a group does not look past its closing bracket. */
  lemma {:induction false} GroupExtends(x: string, z: string)
    requires Group(x).Some?
    ensures Group(x + z) == Group(x)
    decreases |x|
  {
    if After(x).Comma? {
      GroupExtends(Rest(x), z);
      CommaExtends(x, z);
    } else {
      SameStart(x, z);
    }
  }

  lemma CommaExtends(x: string, z: string)
    requires After(x).Comma? && Group(Rest(x)).Some? && Group(Rest(x) + z) == Group(Rest(x))
    ensures Group(x + z) == Group(x)
  {
    RestExtends(x, z);
    CommaGroup(x);
    CommaGroup(x + z);
  }

  lemma CommaGroup(x: string)
    requires After(x).Comma?
    ensures Group(x) == Further(|x| - |Rest(x)|, Number(x), Group(Rest(x)))
  {
  }

  lemma RestExtends(x: string, z: string)
    requires After(x).Comma? && Rest(x) != ""
    ensures After(x + z).Comma? && Rest(x + z) == Rest(x) + z && Number(x + z) == Number(x)
    ensures |x + z| - |Rest(x + z)| == |x| - |Rest(x)|
  {
    SameStart(x, z);
  }

  lemma BracketIsNoMark(x: string, y: string)
    requires y != "" && y[0] == '[' && After(x).Other?
    ensures After(x + y).Other?
  {
    var n := DigitRun(x);
    assert n < |x| ==> (x + y)[n] == x[n];
    assert (x + y)[|x|] == '[';
    DigitRunIs(x + y, n);
  }

  /** An opening bracket stops a group: it is read before the bracket or not at all. */
  lemma {:induction false} GroupBlocked(x: string, y: string)
    requires y != "" && y[0] == '['
    ensures Group(x + y).Some? ==> Group(x).Some?
    decreases |x|
  {
    if After(x).Other? {
      BracketIsNoMark(x, y);
    } else {
      SameStart(x, y);
      if After(x).Comma? {
        if Rest(x) == "" {
          assert Rest(x + y) == Lead(y) == y && After(y).Other? && Group(y).None?;
        } else {
          assert Rest(x + y) == Rest(x) + y;
          GroupBlocked(Rest(x), y);
        }
      }
    }
  }

  lemma TagIsRead(k: nat, rest: string)
    ensures Group(Decimal(k) + "]" + rest) == Some((|Decimal(k)| + 1, [k]))
  {
    var d := Decimal(k);
    var s := d + "]" + rest;
    DigitRunIs(s, |d|);
    assert s[..|d|] == d;
  }

  predicate Numeral(d: string) { d != "" && forall i :: 0 <= i < |d| ==> IsDigit(d[i]) }

  /** The last numeral of a bracket, whatever follows the bracket. */
  lemma LastIsRead(d: string, rest: string)
    requires Numeral(d)
    ensures Group(d + ("]" + rest)) == Some((|d| + 1, [Value(d)]))
  {
    DigitsAreRead(d, "]" + rest);
  }

  lemma DigitsAreRead(d: string, tail: string)
    requires Numeral(d) && tail != "" && !IsDigit(tail[0])
    ensures DigitRun(d + tail) == |d| && Number(d + tail) == Value(d) && (d + tail)[|d|] == tail[0]
    ensures (d + tail)[|d| + 1..] == tail[1..]
  {
    DigitRunIs(d + tail, |d|);
    assert (d + tail)[..|d|] == d;
  }

  /** A numeral with a comma and a blank behind it is put in front of what is read after them. */
  lemma CommaIsRead(d: string, more: string)
    requires Numeral(d) && more != "" && IsDigit(more[0])
    ensures Group(d + (", " + more)) == Further(|d| + 2, Value(d), Group(more))
  {
    CommaIsFound(d, more);
  }

  lemma CommaIsFound(d: string, more: string)
    requires Numeral(d) && more != "" && IsDigit(more[0])
    ensures var s := d + (", " + more); After(s).Comma? && Number(s) == Value(d) && Rest(s) == more
  {
    var tail := ", " + more;
    DigitsAreRead(d, tail);
    assert tail[1..] == " " + more;
    BlankIsDropped(more);
  }

  lemma BlankIsDropped(more: string)
    requires more != "" && IsDigit(more[0])
    ensures Lead(" " + more) == more
  {
    assert (" " + more)[1..] == more;
  }

  /** What is read as a group is digits, commas and blanks, and ends in the bracket. */
  lemma {:induction false} GroupShape(s: string, i: nat)
    requires Group(s).Some? && i < Group(s).value.0
    ensures if i == Group(s).value.0 - 1 then s[i] == ']' else IsDigit(s[i]) || s[i] == ',' || IsSpace(s[i])
    decreases |s|
  {
    var d := DigitRun(s);
    if After(s).Comma? && i > d {
      var k := |s| - |Rest(s)|;
      BehindTheComma(s, i);
      if i >= k { GroupShape(Rest(s), i - k); }
    }
  }

  lemma BehindTheComma(s: string, i: nat)
    requires After(s).Comma? && DigitRun(s) < i < |s|
    ensures var k := |s| - |Rest(s)|; if i < k then IsSpace(s[i]) else s[i] == Rest(s)[i - k]
  {
    var d := DigitRun(s);
    BehindTheLead(s[d + 1..], i - d - 1);
    assert s[d + 1..][i - d - 1] == s[i];
  }

  lemma {:induction false} BehindTheLead(s: string, i: nat)
    requires i < |s|
    ensures var k := |s| - |Lead(s)|; if i < k then IsSpace(s[i]) else s[i] == Lead(s)[i - k]
  {
    if IsSpace(s[0]) && i > 0 { BehindTheLead(s[1..], i - 1); }
  }

  function Tags(ks: seq<nat>): string { if ks == [] then "" else Tag(ks[0]) + Tags(ks[1..]) }

  /** Reading undoes writing: adjacent tags are read back as the numbers they were made from. */
  lemma {:induction false} ExtractReadsTags(ks: seq<nat>)
    ensures Extract(Tags(ks)) == ks
  {
    if ks != [] {
      var s, d := Tags(ks), Decimal(ks[0]);
      assert s[0] == '[' && s[1..] == d + "]" + Tags(ks[1..]);
      TagIsRead(ks[0], Tags(ks[1..]));
      assert s[1 + |d| + 1..] == Tags(ks[1..]);
      ExtractReadsTags(ks[1..]);
    }
  }

  /** Inserting a tag into a sentence without references gives it exactly that reference. */
  lemma {:induction false} ExtractTagged(a: string, k: nat, end: string)
    requires Extract(a + end) == [] && (end == "" || (|end| == 1 && IsStop(end[0])))
    ensures Extract(a + Tag(k) + end) == [k]
    decreases |a|
  {
    var s := a + Tag(k) + end;
    if a == "" {
      assert s == Tag(k) + end && a + end == end;
      ExtractOneTag(k, end);
    } else {
      TextIsSkipped(a, k, end);
      ExtractTagged(a[1..], k, end);
    }
  }

  lemma ExtractOneTag(k: nat, end: string)
    requires Extract(end) == []
    ensures Extract(Tag(k) + end) == [k]
  {
    var s := Tag(k) + end;
    assert s[0] == '[' && s[1..] == Decimal(k) + "]" + end;
    TagIsRead(k, end);
    assert s[1 + |Decimal(k)| + 1..] == end;
  }

  /** A character of the sentence opens no group, with the tag behind it or without. */
  lemma TextIsSkipped(a: string, k: nat, end: string)
    requires a != "" && Extract(a + end) == []
    ensures Extract(a[1..] + end) == [] && Extract(a + Tag(k) + end) == Extract(a[1..] + Tag(k) + end)
  {
    var s, y := a + Tag(k) + end, Tag(k) + end;
    assert (a + end)[0] == a[0] && s[0] == a[0];
    assert (a + end)[1..] == a[1..] + end;
    assert s[1..] == a[1..] + Tag(k) + end && s[1..] == a[1..] + y;
    if a[0] == '[' {
      GroupBlocked(a[1..], y);
      if Group(a[1..]).Some? { GroupExtends(a[1..], end); }
    }
  }

  // ---- Evidence trace ----------------------------------------------------------------------

  datatype Traced = Traced(text: string, sources: seq<nat>, supported: bool)

  function Supported(sentences: seq<string>): nat {
    if sentences == [] then 0
    else Supported(sentences[..|sentences| - 1]) + if Extract(sentences[|sentences| - 1]) != [] then 1 else 0
  }

  function TraceOf(s: string): Traced { Traced(s, Extract(s), Extract(s) != []) }

  method EvidenceTrace(answer: string) returns (traced: seq<Traced>, totalSupported: nat, ratio: real)
    ensures |traced| == |SplitSentences(answer)| && totalSupported == Supported(SplitSentences(answer)) <= |traced|
    ensures forall i :: 0 <= i < |traced| ==> traced[i] == TraceOf(SplitSentences(answer)[i])
    ensures ratio == RoundTo(SupportRatio(totalSupported, |traced|), 1000) && 0.0 <= ratio <= 1.0
    ensures ratio == 1.0 <==> |traced| > 0 && 2000 * totalSupported >= 1999 * |traced|
  {
    traced, totalSupported := TraceEach(SplitSentences(answer));
    ratio := RoundTo(SupportRatio(totalSupported, |traced|), 1000);
    ShownRatio(totalSupported, |traced|);
  }

  /** The loop of `evidence_trace` over the sentences. */
  method TraceEach(sentences: seq<string>) returns (traced: seq<Traced>, totalSupported: nat)
    ensures |traced| == |sentences| && totalSupported == Supported(sentences) <= |traced|
    ensures forall i :: 0 <= i < |traced| ==> traced[i] == TraceOf(sentences[i])
  {
    traced, totalSupported := [], 0;
    for i := 0 to |sentences|
      invariant |traced| == i && totalSupported == Supported(sentences[..i]) <= i
      invariant forall k :: 0 <= k < i ==> traced[k] == TraceOf(sentences[k])
    {
      assert sentences[..i + 1][..i] == sentences[..i];
      var sources := Extract(sentences[i]);
      if sources != [] { totalSupported := totalSupported + 1; }
      traced := traced + [Traced(sentences[i], sources, sources != [])];
    }
    assert sentences[..|sentences|] == sentences;
  }

  /** Rounding to three places shows 1 also when a few sentences in two thousand lack support. */
  lemma ShownRatio(supported: nat, total: nat)
    requires supported <= total
    ensures 0.0 <= RoundTo(SupportRatio(supported, total), 1000) <= 1.0
    ensures RoundTo(SupportRatio(supported, total), 1000) == 1.0 <==> total > 0 && 2000 * supported >= 1999 * total
  {
    var r := SupportRatio(supported, total);
    RoundHalfEvenMonotone(0.0, r * 1000.0);
    RoundHalfEvenMonotone(r * 1000.0, 1000.0);
    if total > 0 { FractionAbove(supported as real, total as real, 0.9995); }
  }

  function SupportRatio(supported: nat, total: nat): (r: real)
    requires supported <= total
    ensures 0.0 <= r <= 1.0 && (r == 1.0 <==> supported == total > 0)
  {
    Ratio(supported, Max(total, 1))
  }

  // ---- Adding citations ---------------------------------------------------------------------

  function BareIndices(sentences: seq<string>): (r: seq<nat>)
    ensures forall i :: 0 <= i < |r| ==> r[i] < |sentences| && Extract(sentences[r[i]]) == []
    ensures forall i, j :: 0 <= i < j < |r| ==> r[i] < r[j]
    ensures forall i :: 0 <= i < |sentences| && Extract(sentences[i]) == [] ==> i in r
  {
    if sentences == [] then []
    else
      var n := |sentences| - 1;
      var init := BareIndices(sentences[..n]);
      if Extract(sentences[n]) == [] then init + [n] else init
  }

  /** The first position of the largest entry. */
  function ArgMax(row: seq<real>): (k: nat)
    requires row != []
    ensures k < |row|
    ensures forall i :: 0 <= i < |row| ==> row[i] <= row[k]
    ensures forall i :: 0 <= i < k ==> row[i] < row[k]
  {
    if |row| == 1 then 0
    else
      var n := |row| - 1;
      var k := ArgMax(row[..n]);
      if row[k] < row[n] then n else k
  }

  predicate Stopped(s: string) { s != "" && IsStop(s[|s| - 1]) }

  /** The tag goes before the sentence end, so that a later split keeps it in its sentence. */
  function Annotate(s: string, tag: string): string {
    if Stopped(s) then s[..|s| - 1] + tag + [s[|s| - 1]] else s + tag
  }

  function Cite(s: string, row: seq<real>, threshold: real): string {
    if row != [] && row[ArgMax(row)] >= threshold then Annotate(s, Tag(ArgMax(row) + 1)) else s
  }

  /** A bare sentence is tagged exactly when some similarity reaches the threshold, and then with the
      number of the first context of the largest one. */
  lemma CiteMeans(s: string, row: seq<real>, threshold: real)
    requires IsSentence(s) && Extract(s) == []
    ensures Earned(s, row, threshold, Cite(s, row, threshold))
  {
    CiteAddsOneTag(s, row, threshold);
    if row != [] {
      var best := ArgMax(row);
      assert BestColumn(row, best);
      assert |Annotate(s, Tag(best + 1))| > |s|;
    }
  }

  ghost predicate BestColumn(row: seq<real>, c: int) {
    && 0 <= c < |row| && (forall d :: 0 <= d < |row| ==> row[d] <= row[c])
    && (forall d :: 0 <= d < c ==> row[d] < row[c])
  }

  /** The similarities of bare sentence `r`; none when the service failed or returned too few. */
  function RowOf(sim: Option<seq<seq<real>>>, r: nat): seq<real> {
    if sim.Some? && r < |sim.value| then sim.value[r] else []
  }

  /** What `auto_cite` makes of the sentences. */
  ghost predicate Cited(sentences: seq<string>, sim: Option<seq<seq<real>>>, threshold: real, annotated: seq<string>) {
    var bare := BareIndices(sentences);
    && |annotated| == |sentences|
    && (forall i :: 0 <= i < |sentences| && Extract(sentences[i]) != [] ==> annotated[i] == sentences[i])
    && (forall r :: 0 <= r < |bare| ==> annotated[bare[r]] == Cite(sentences[bare[r]], RowOf(sim, r), threshold))
  }

  method AutoCite(answer: string, contexts: nat, sim: Option<seq<seq<real>>>, threshold: real)
    returns (newAnswer: string, ghost annotated: seq<string>)
    ensures contexts == 0 ==> newAnswer == answer && annotated == SplitSentences(answer)
    ensures contexts > 0 ==> newAnswer == Join(annotated) && Cited(SplitSentences(answer), sim, threshold, annotated)
    // A bare sentence is tagged exactly when some similarity of its row reaches the threshold.
    ensures contexts > 0 ==> TagsAreEarned(SplitSentences(answer), sim, threshold, annotated)
    ensures SplitSentences(newAnswer) == annotated
    ensures Supported(SplitSentences(newAnswer)) >= Supported(SplitSentences(answer))
  {
    var sentences := SplitSentences(answer);
    if answer == "" || contexts == 0 {
      if answer == "" { assert SplitParts("") == [""]; assert NonBlank([""][1..]) == []; }
      return answer, sentences;
    }
    var bare := BareIndices(sentences);
    var list := sentences;
    if bare != [] && sim.Some? {
      // Reading a row past the last one raises an IndexError, which the source catches.
      list := AddTags(sentences, bare, sim.value[..Min(|bare|, |sim.value|)], threshold);
      TaggedIsCited(sentences, sim.value, threshold, list);
    } else {
      UntaggedIsCited(sentences, sim, threshold);
    }
    annotated := list;
    newAnswer := Join(list);
    CitedResplits(answer, sim, threshold, list);
    SplitYieldsSentences(answer);
    CitedIsEarned(sentences, sim, threshold, list);
  }

  /** The sentence was tagged exactly when some similarity of its row reaches the threshold, with the
      number of the first context of the largest one. */
  ghost predicate Earned(s: string, row: seq<real>, threshold: real, result: string) {
    && (result != s <==> exists c :: 0 <= c < |row| && row[c] >= threshold)
    && (result != s ==> exists c :: BestColumn(row, c) && Extract(result) == [c + 1])
  }

  ghost predicate TagsAreEarned(sentences: seq<string>, sim: Option<seq<seq<real>>>, threshold: real,
                                annotated: seq<string>) {
    var bare := BareIndices(sentences);
    && |annotated| == |sentences|
    && forall r :: 0 <= r < |bare| ==>
         Earned(sentences[bare[r]], if sim.Some? && r < |sim.value| then sim.value[r] else [], threshold,
                annotated[bare[r]])
  }

  lemma CitedIsEarned(sentences: seq<string>, sim: Option<seq<seq<real>>>, threshold: real, annotated: seq<string>)
    requires Sentences(sentences) && Cited(sentences, sim, threshold, annotated)
    ensures TagsAreEarned(sentences, sim, threshold, annotated)
  {
    var bare := BareIndices(sentences);
    forall r | 0 <= r < |bare|
      ensures Earned(sentences[bare[r]], RowOf(sim, r), threshold, annotated[bare[r]])
    {
      CiteMeans(sentences[bare[r]], RowOf(sim, r), threshold);
    }
  }

  /** Joining and splitting again gives the annotated sentences, with no support lost. */
  lemma CitedResplits(answer: string, sim: Option<seq<seq<real>>>, threshold: real, annotated: seq<string>)
    requires Cited(SplitSentences(answer), sim, threshold, annotated)
    ensures SplitSentences(Join(annotated)) == annotated
    ensures Supported(annotated) >= Supported(SplitSentences(answer))
  {
    SplitYieldsSentences(answer);
    CitedAreSentences(SplitSentences(answer), sim, threshold, annotated);
    SplitOfJoin(annotated);
    SupportNeverFalls(SplitSentences(answer), sim, threshold, annotated);
  }

  /** The first `n` bare sentences have been cited from their rows, the others are as they were. */
  ghost predicate TaggedUpTo(sentences: seq<string>, bare: seq<nat>, rows: seq<seq<real>>, threshold: real,
                             annotated: seq<string>, n: nat)
  {
    && n <= |rows| <= |bare| && |annotated| == |sentences| && (forall i :: 0 <= i < |bare| ==> bare[i] < |sentences|)
    && (forall i :: 0 <= i < |sentences| && i !in bare[..n] ==> annotated[i] == sentences[i])
    && (forall r :: 0 <= r < n ==> annotated[bare[r]] == Cite(sentences[bare[r]], rows[r], threshold))
  }

  /** The loop of `auto_cite` over the rows of the similarity matrix. */
  method AddTags(sentences: seq<string>, bare: seq<nat>, rows: seq<seq<real>>, threshold: real)
    returns (annotated: seq<string>)
    requires |rows| <= |bare| && forall i :: 0 <= i < |bare| ==> bare[i] < |sentences|
    requires forall i, j :: 0 <= i < j < |bare| ==> bare[i] < bare[j]
    ensures TaggedUpTo(sentences, bare, rows, threshold, annotated, |rows|)
  {
    annotated := sentences;
    for row := 0 to |rows|
      invariant TaggedUpTo(sentences, bare, rows, threshold, annotated, row)
    {
      var si := bare[row];
      TagNext(sentences, bare, rows, threshold, annotated, row);
      ghost var next := annotated[si := Cite(sentences[si], rows[row], threshold)];
      if rows[row] != [] {
        var best := ArgMax(rows[row]);
        if rows[row][best] >= threshold {
          var s, tag := sentences[si], Tag(best + 1);
          annotated := annotated[si := if Stopped(s) then s[..|s| - 1] + tag + [s[|s| - 1]] else s + tag];
        }
      }
      assert annotated == next;
    }
  }

  lemma TagNext(sentences: seq<string>, bare: seq<nat>, rows: seq<seq<real>>, threshold: real,
                annotated: seq<string>, row: nat)
    requires row < |rows| && TaggedUpTo(sentences, bare, rows, threshold, annotated, row)
    requires forall i, j :: 0 <= i < j < |bare| ==> bare[i] < bare[j]
    ensures annotated[bare[row]] == sentences[bare[row]]
    ensures TaggedUpTo(sentences, bare, rows, threshold,
                       annotated[bare[row] := Cite(sentences[bare[row]], rows[row], threshold)], row + 1)
  {
    assert bare[..row + 1] == bare[..row] + [bare[row]] && bare[row] !in bare[..row];
  }

  lemma TaggedIsCited(sentences: seq<string>, sim: seq<seq<real>>, threshold: real, annotated: seq<string>)
    requires var bare := BareIndices(sentences);
             var n := Min(|bare|, |sim|);
             TaggedUpTo(sentences, bare, sim[..n], threshold, annotated, n)
    ensures Cited(sentences, Some(sim), threshold, annotated)
  {
    var bare := BareIndices(sentences);
    var n := Min(|bare|, |sim|);
    forall r | 0 <= r < |bare| ensures annotated[bare[r]] == Cite(sentences[bare[r]], RowOf(Some(sim), r), threshold) {
      if r >= n { assert bare[r] !in bare[..n]; }
    }
  }

  lemma UntaggedIsCited(sentences: seq<string>, sim: Option<seq<seq<real>>>, threshold: real)
    requires BareIndices(sentences) == [] || sim.None?
    ensures Cited(sentences, sim, threshold, sentences)
  {
  }

  lemma AnnotateKeepsSentence(s: string, k: nat)
    requires IsSentence(s)
    ensures IsSentence(Annotate(s, Tag(k))) && (Complete(Annotate(s, Tag(k))) <==> Complete(s))
  {
    var t := Annotate(s, Tag(k));
    var n := if Stopped(s) then |s| - 1 else |s|;
    forall i | 0 <= i < |t| - 1 ensures !IsEnd(t[i]) {
      if i < n { assert t[i] == s[i]; }
      else if i < n + |Tag(k)| { assert t[i] == Tag(k)[i - n]; }
    }
  }

  /** The two character sets differ in the ASCII exclamation mark: no split is made behind it, but a
      tag is put before it, and stays in its sentence. */
  lemma ExclamationIsNoEnd(s: string, k: nat)
    requires IsSentence(s + "!")
    ensures SplitSentences(s + "!") == [s + "!"] && Annotate(s + "!", Tag(k)) == s + Tag(k) + "!"
    ensures SplitSentences(s + Tag(k) + "!") == [s + Tag(k) + "!"]
  {
    var t := s + "!";
    AnnotateKeepsSentence(t, k);
    assert t[..|t| - 1] == s && Annotate(t, Tag(k)) == s + Tag(k) + "!";
    AloneIsSplit(t);
    AloneIsSplit(s + Tag(k) + "!");
  }

  lemma AloneIsSplit(s: string)
    requires IsSentence(s)
    ensures SplitSentences(s) == [s]
  {
    assert Join([s][1..]) == "" && s + "" == s && Join([s]) == s;
    SplitOfJoin([s]);
  }

  /** A bare sentence is left alone or gets one tag, which is then its only reference. */
  lemma CiteAddsOneTag(s: string, row: seq<real>, threshold: real)
    requires IsSentence(s) && Extract(s) == []
    ensures var t := Cite(s, row, threshold);
            && IsSentence(t) && (Complete(t) <==> Complete(s))
            && (t != s ==> row != [] && Extract(t) == [ArgMax(row) + 1])
  {
    if row != [] && row[ArgMax(row)] >= threshold {
      var k := ArgMax(row) + 1;
      AnnotateKeepsSentence(s, k);
      if Stopped(s) {
        assert s[..|s| - 1] + [s[|s| - 1]] == s;
        ExtractTagged(s[..|s| - 1], k, [s[|s| - 1]]);
      } else {
        assert s + "" == s && s + Tag(k) + "" == s + Tag(k);
        ExtractTagged(s, k, "");
      }
    }
  }

  /** Every sentence of the result is unchanged, or was bare and now carries exactly one number,
      which is a column of the similarities and so at most the number of contexts. */
  lemma CitedSentence(sentences: seq<string>, sim: Option<seq<seq<real>>>, threshold: real, annotated: seq<string>,
                      columns: nat, i: nat)
    requires Sentences(sentences) && Cited(sentences, sim, threshold, annotated) && i < |sentences|
    requires sim.Some? ==> forall r :: 0 <= r < |sim.value| ==> |sim.value[r]| <= columns
    ensures IsSentence(annotated[i]) && (Complete(annotated[i]) <==> Complete(sentences[i]))
    ensures annotated[i] == sentences[i]
            || (Extract(sentences[i]) == [] && |Extract(annotated[i])| == 1 && 1 <= Extract(annotated[i])[0] <= columns)
  {
    if Extract(sentences[i]) == [] {
      var bare := BareIndices(sentences);
      var r :| 0 <= r < |bare| && bare[r] == i;
      CiteAddsOneTag(sentences[i], RowOf(sim, r), threshold);
    }
  }

  lemma WidestRow(rows: seq<seq<real>>) returns (columns: nat)
    ensures forall r :: 0 <= r < |rows| ==> |rows[r]| <= columns
  {
    columns := 0;
    for i := 0 to |rows|
      invariant forall r :: 0 <= r < i ==> |rows[r]| <= columns
    {
      columns := Max(columns, |rows[i]|);
    }
  }

  lemma CitedAreSentences(sentences: seq<string>, sim: Option<seq<seq<real>>>, threshold: real, annotated: seq<string>)
    requires Sentences(sentences) && Cited(sentences, sim, threshold, annotated)
    ensures Sentences(annotated)
  {
    var columns := WidestRow(if sim.Some? then sim.value else []);
    forall i | 0 <= i < |annotated|
      ensures IsSentence(annotated[i]) && (i < |annotated| - 1 ==> Complete(annotated[i]))
    {
      CitedSentence(sentences, sim, threshold, annotated, columns, i);
    }
  }

  lemma {:induction false} SupportGrows(a: seq<string>, b: seq<string>)
    requires |a| == |b| && forall i :: 0 <= i < |a| && Extract(a[i]) != [] ==> Extract(b[i]) != []
    ensures Supported(a) <= Supported(b)
  {
    if a != [] { SupportGrows(a[..|a| - 1], b[..|b| - 1]); }
  }

  lemma SupportNeverFalls(sentences: seq<string>, sim: Option<seq<seq<real>>>, threshold: real, annotated: seq<string>)
    requires Sentences(sentences) && Cited(sentences, sim, threshold, annotated)
    ensures Supported(annotated) >= Supported(sentences)
  {
    SupportGrows(sentences, annotated);
  }

  /** Annotating is idempotent on the sentences it has cited: a second pass with any similarities
      leaves every sentence that carries a reference as it is. */
  lemma SecondPassKeepsCited(sentences: seq<string>, sim: Option<seq<seq<real>>>, threshold: real,
                             annotated: seq<string>,
                             sim2: Option<seq<seq<real>>>, again: seq<string>, i: nat)
    requires Sentences(sentences) && Cited(sentences, sim, threshold, annotated)
    requires Cited(annotated, sim2, threshold, again)
    requires i < |sentences| && annotated[i] != sentences[i]
    ensures again[i] == annotated[i]
  {
    var columns := WidestRow(if sim.Some? then sim.value else []);
    CitedSentence(sentences, sim, threshold, annotated, columns, i);
  }
}
