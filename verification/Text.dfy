/** Python's text primitives as the program uses them: whitespace, strip, split on
    a character, replace, and caseless ASCII keywords. */
module Text {
  import opened Basics

  /** The characters that `str.strip` removes and that `\s` matches. */
  predicate IsSpace(c: char) {
    var n := c as int;
    || 0x09 <= n <= 0x0D || 0x1C <= n <= 0x20 || n == 0x85 || n == 0xA0 || n == 0x1680
    || 0x2000 <= n <= 0x200A || n == 0x2028 || n == 0x2029 || n == 0x202F || n == 0x205F || n == 0x3000
  }

  predicate IsDigit(c: char) { '0' <= c <= '9' }

  predicate AllDigits(s: string) { forall c :: c in s ==> IsDigit(c) }

  predicate NoSpaces(s: string) { forall c :: c in s ==> !IsSpace(c) }

  /** How many leading characters are whitespace. */
  function SpaceRun(s: string): (n: nat)
    ensures n <= |s|
  {
    if s != [] && IsSpace(s[0]) then 1 + SpaceRun(s[1..]) else 0
  }

  lemma {:induction false} SpaceRunIsMaximal(s: string)
    ensures forall i :: 0 <= i < SpaceRun(s) ==> IsSpace(s[i])
    ensures SpaceRun(s) < |s| ==> !IsSpace(s[SpaceRun(s)])
  {
    if s != [] && IsSpace(s[0]) {
      SpaceRunIsMaximal(s[1..]);
      forall i | 0 <= i < SpaceRun(s) ensures IsSpace(s[i]) {
        if i > 0 { assert s[i] == s[1..][i - 1]; }
      }
    }
  }

  function StripRight(s: string): string {
    if s != [] && IsSpace(s[|s| - 1]) then StripRight(s[..|s| - 1]) else s
  }

  function Strip(s: string): string {
    StripRight(s[SpaceRun(s)..])
  }

  predicate IsOnlySpace(s: string) { forall c :: c in s ==> IsSpace(c) }

  lemma {:induction false} BlankIsOnlySpace(s: string)
    ensures Strip(s) == "" <==> IsOnlySpace(s)
  {
    SpaceRunIsMaximal(s);
    var t := s[SpaceRun(s)..];
    if t != "" {
      assert s[SpaceRun(s)] == t[0];
      StripRightKeepsHead(t);
    }
  }

  lemma {:induction false} StripRightKeepsHead(t: string)
    requires t != "" && !IsSpace(t[0])
    ensures StripRight(t) != ""
  {
    if IsSpace(t[|t| - 1]) { StripRightKeepsHead(t[..|t| - 1]); }
  }

  lemma StripTrimmed(s: string)
    requires s == [] || (!IsSpace(s[0]) && !IsSpace(s[|s| - 1]))
    ensures Strip(s) == s
  {
  }

  /** Text that neither begins nor ends with whitespace. */
  predicate Edged(s: string) { s != "" && !IsSpace(s[0]) && !IsSpace(s[|s| - 1]) }

  lemma {:induction false} RunThenRest(w: string, s: string)
    requires IsOnlySpace(w) && (s == "" || !IsSpace(s[0]))
    ensures SpaceRun(w + s) == |w| && (w + s)[|w|..] == s
  {
    if w == "" {
      assert w + s == s;
    } else {
      assert w[0] in w && (w + s)[1..] == w[1..] + s;
      assert forall c :: c in w[1..] ==> c in w;
      RunThenRest(w[1..], s);
    }
  }

  lemma {:induction false} StripRightParts(s: string) returns (n: nat)
    ensures n <= |s| && StripRight(s) == s[..n] && IsOnlySpace(s[n..]) && (n == 0 || !IsSpace(s[n - 1]))
  {
    n := |s|;
    if s != "" && IsSpace(s[|s| - 1]) {
      n := StripRightParts(s[..|s| - 1]);
      assert s[n..] == s[..|s| - 1][n..] + [s[|s| - 1]];
    }
  }

  lemma StripParts(s: string) returns (lead: string, trail: string)
    ensures s == lead + Strip(s) + trail && IsOnlySpace(lead) && IsOnlySpace(trail)
    ensures Strip(s) == "" || Edged(Strip(s))
  {
    var k := SpaceRun(s);
    LeadingRun(s);
    var n := StripRightParts(s[k..]);
    lead, trail := s[..k], s[k..][n..];
    ThreePieces(s, k, n);
    assert n > 0 ==> s[k..][..n][0] == s[k] && s[k..][..n][n - 1] == s[k..][n - 1];
  }

  lemma LeadingRun(s: string)
    ensures IsOnlySpace(s[..SpaceRun(s)]) && (SpaceRun(s) < |s| ==> !IsSpace(s[SpaceRun(s)]))
  {
    SpaceRunIsMaximal(s);
  }

  lemma ThreePieces(s: string, k: nat, n: nat)
    requires k <= |s| && n <= |s[k..]|
    ensures s == s[..k] + s[k..][..n] + s[k..][n..]
  {
  }

  lemma {:induction false} StripRightTail(m: string, trail: string)
    requires IsOnlySpace(trail) && m != "" && !IsSpace(m[|m| - 1])
    ensures StripRight(m + trail) == m
  {
    if trail == "" {
      assert m + trail == m;
    } else {
      var last := |trail| - 1;
      assert trail[last] in trail && (m + trail)[..|m + trail| - 1] == m + trail[..last];
      assert forall c :: c in trail[..last] ==> c in trail;
      StripRightTail(m, trail[..last]);
    }
  }

  lemma StripWrapped(lead: string, m: string, trail: string)
    requires IsOnlySpace(lead) && IsOnlySpace(trail) && Edged(m)
    ensures Strip(lead + m + trail) == m
  {
    assert lead + m + trail == lead + (m + trail);
    RunThenRest(lead, m + trail);
    StripRightTail(m, trail);
  }

  /** `str.split(sep)`: always at least one piece. */
  function SplitOn(s: string, sep: char): (pieces: seq<string>)
    ensures pieces != []
  {
    if s == [] then [""]
    else
      var rest := SplitOn(s[1..], sep);
      if s[0] == sep then [""] + rest else [[s[0]] + rest[0]] + rest[1..]
  }

  lemma {:induction false} SplitOnSkips(t: string, s: string, sep: char)
    requires sep !in t
    ensures SplitOn(t + s, sep) == [t + SplitOn(s, sep)[0]] + SplitOn(s, sep)[1..]
  {
    if t == "" {
      assert t + s == s && t + SplitOn(s, sep)[0] == SplitOn(s, sep)[0];
    } else {
      assert (t + s)[1..] == t[1..] + s && t[0] in t;
      SplitOnSkips(t[1..], s, sep);
      assert [t[0]] + (t[1..] + SplitOn(s, sep)[0]) == t + SplitOn(s, sep)[0];
    }
  }

  lemma SplitAtSep(part: string, rest: string, sep: char)
    requires sep !in part
    ensures SplitOn(part + [sep] + rest, sep) == [part] + SplitOn(rest, sep)
  {
    var s := [sep] + rest;
    assert part + [sep] + rest == part + s && s[1..] == rest;
    SplitOnSkips(part, s, sep);
    assert part + "" == part;
  }

  lemma SplitLast(part: string, sep: char)
    requires sep !in part
    ensures SplitOn(part, sep) == [part]
  {
    SplitOnSkips(part, "", sep);
    assert part + "" == part;
  }

  /** `str.replace(old, new)` for single characters. */
  function ReplaceChar(s: string, old_: char, new_: char): (r: string)
    ensures |r| == |s|
  {
    Map(s, c => if c == old_ then new_ else c)
  }

  /** `str.replace(c, "")`. */
  function RemoveChar(s: string, c: char): (r: string)
    ensures c !in r
    ensures c !in s ==> r == s
  {
    if s == [] then []
    else
      assert s == s[..|s| - 1] + [s[|s| - 1]];
      var r := RemoveChar(s[..|s| - 1], c);
      if s[|s| - 1] == c then r else r + [s[|s| - 1]]
  }

  lemma {:induction false} RemoveCharConcat(a: string, b: string, c: char)
    ensures RemoveChar(a + b, c) == RemoveChar(a, c) + RemoveChar(b, c)
  {
    if b == [] {
      assert a + b == a;
    } else {
      assert (a + b)[..|a + b| - 1] == a + b[..|b| - 1];
      RemoveCharConcat(a, b[..|b| - 1], c);
    }
  }

  /** `str.replace(word, "")`: occurrences are removed left to right. */
  function RemoveWord(s: string, word: string): string
    requires word != []
  {
    if s == [] then []
    else if word <= s then RemoveWord(s[|word|..], word)
    else [s[0]] + RemoveWord(s[1..], word)
  }

  lemma {:induction false} RemoveWordAbsent(s: string, word: string)
    requires word != [] && word[0] !in s
    ensures RemoveWord(s, word) == s
  {
    if s != [] {
      assert word[0] != s[0];
      RemoveWordAbsent(s[1..], word);
      assert s == [s[0]] + s[1..];
    }
  }

  /** Caseless matching of ASCII letters under Unicode rules: besides the two ASCII cases,
      dotted and dotless i, long s and the Kelvin sign also match. */
  function FoldChar(c: char): char {
    if 'a' <= c <= 'z' then (c as int - 32) as char
    else if c as int == 0x130 || c as int == 0x131 then 'I'
    else if c as int == 0x17F then 'S'
    else if c as int == 0x212A then 'K'
    else c
  }

  function Fold(s: string): (r: string)
    ensures |r| == |s|
    ensures forall i :: 0 <= i < |s| ==> r[i] == FoldChar(s[i])
  {
    Map(s, FoldChar)
  }

  /** `s` begins with the (upper-case) keyword, ignoring case. */
  predicate StartsWithFold(s: string, keyword: string) {
    |keyword| <= |s| && Fold(s[..|keyword|]) == keyword
  }

  function Join(words: seq<string>, sep: string): string {
    if words == [] then ""
    else if |words| == 1 then words[0]
    else words[0] + sep + Join(words[1..], sep)
  }
}
