/** The whitespace handling of Python's `str.strip`, and decimal numerals. */
module Text {
  predicate IsSpace(c: char) {
    || '\U{0009}' <= c <= '\U{000D}' || '\U{001C}' <= c <= '\U{0020}' || c == '\U{0085}' || c == '\U{00A0}'
    || c == '\U{1680}' || '\U{2000}' <= c <= '\U{200A}' || c == '\U{2028}' || c == '\U{2029}'
    || c == '\U{202F}' || c == '\U{205F}' || c == '\U{3000}'
  }

  /** The 29 characters that Python takes for white space, by code point. */
  lemma SpacesAre(c: char)
    ensures var n := c as int;
            IsSpace(c) <==> 9 <= n <= 13 || 28 <= n <= 32 || n == 133 || n == 160 || n == 5760 || 8192 <= n <= 8202
                            || n == 8232 || n == 8233 || n == 8239 || n == 8287 || n == 12288
  {
    var others := ['\U{0085}', '\U{00A0}', '\U{1680}', '\U{2028}', '\U{2029}', '\U{202F}', '\U{205F}', '\U{3000}'];
    assert forall i :: 0 <= i < |others| && others[i] as int == c as int ==> others[i] == c;
    assert others[0] as int == 133 && others[1] as int == 160 && others[2] as int == 5760 && others[3] as int == 8232;
    assert others[4] as int == 8233 && others[5] as int == 8239 && others[6] as int == 8287;
    assert others[7] as int == 12288;
  }

  function Lead(s: string): (r: string)
    ensures |r| <= |s| && (r != "" ==> !IsSpace(r[0]))
    ensures s != "" && !IsSpace(s[0]) ==> r == s
  {
    if s != "" && IsSpace(s[0]) then Lead(s[1..]) else s
  }

  function Trail(s: string): (r: string)
    ensures r <= s && (r != "" ==> !IsSpace(r[|r| - 1]))
    ensures s != "" && !IsSpace(s[|s| - 1]) ==> r == s
  {
    if s != "" && IsSpace(s[|s| - 1]) then Trail(s[..|s| - 1]) else s
  }

  function Strip(s: string): string { Trail(Lead(s)) }

  predicate Blank(s: string) { forall i :: 0 <= i < |s| ==> IsSpace(s[i]) }

  /** Stripping removes white space at both ends, all of it, and nothing else. */
  lemma StripMeans(s: string) returns (a: string, b: string)
    ensures Blank(a) && Blank(b) && s == a + Strip(s) + b
    ensures Strip(s) != "" ==> !IsSpace(Strip(s)[0]) && !IsSpace(Strip(s)[|Strip(s)| - 1])
  {
    a := LeadMeans(s);
    b := TrailMeans(Lead(s));
    assert s == a + (Strip(s) + b);
  }

  lemma {:induction false} LeadMeans(s: string) returns (a: string)
    ensures Blank(a) && s == a + Lead(s)
  {
    if s != "" && IsSpace(s[0]) {
      var rest := LeadMeans(s[1..]);
      a := [s[0]] + rest;
      assert s == [s[0]] + s[1..];
    } else {
      a := "";
    }
  }

  lemma {:induction false} TrailMeans(s: string) returns (b: string)
    ensures Blank(b) && s == Trail(s) + b
  {
    if s != "" && IsSpace(s[|s| - 1]) {
      var n := |s| - 1;
      var rest := TrailMeans(s[..n]);
      b := rest + [s[n]];
      assert s == s[..n] + [s[n]];
    } else {
      b := "";
    }
  }

  predicate IsDigit(c: char) { '0' <= c <= '9' }

  function Value(s: string): nat {
    if s == "" then 0 else 10 * Value(s[..|s| - 1]) + DigitValue(s[|s| - 1])
  }

  function DigitValue(c: char): nat { if IsDigit(c) then c as int - '0' as int else 0 }

  function Decimal(n: nat): (s: string)
    ensures s != "" && forall i :: 0 <= i < |s| ==> IsDigit(s[i])
    ensures Value(s) == n
  {
    if n < 10 then
      var s := [('0' as int + n) as char];
      assert s[..0] == "";
      s
    else
      var s := Decimal(n / 10) + [('0' as int + n % 10) as char];
      assert s[..|s| - 1] == Decimal(n / 10);
      s
  }
}
