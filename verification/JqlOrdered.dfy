/** Where ORDER BY is found in text that was accepted without one: never inside it, so that AND and ORDER BY put
    behind such a text are found where they stand. */
module JqlOrdered {
  import opened Basics
  import opened Text
  import opened JqlSyntax
  import opened JqlWords
  import opened JqlClean
  import opened JqlGood
  import opened JqlJoined
  import opened JqlSpelling
  import JqlRoundTrip

  // ---- accepted text does not end in ORDER BY

  /** The text is whitespace, ORDER, whitespace and BY. */
  predicate IsOrderBy(s: string) {
    SpacesThen(s, "ORDER").Some? && SpacesThen(SpacesThen(s, "ORDER").value, "BY") == Some("")
  }

  ghost predicate NoOrderTail(s: string) { forall k :: 0 <= k <= |s| ==> !IsOrderBy(s[k..]) }

  /** The word ORDER ends at `e`; whitespace follows, and from it on nothing is an operator or a parenthesis. */
  predicate ShowsOrder(s: string, a: nat, e: nat) {
    && a <= e && e + 1 < |s| && !IsSpace(s[e]) && IsSpace(s[e + 1]) && s[|s| - 1] != ')'
    && forall i :: a <= i < |s| ==> s[i] != '=' && s[i] != '<' && s[i] != '>'
  }

  lemma LettersOf(s: string, keyword: string)
    requires StartsWithFold(s, keyword) && (forall c :: c in keyword ==> 'A' <= c <= 'Z')
    ensures forall i :: 0 <= i < |keyword| ==> !IsSpace(s[i]) && FoldChar(s[i]) == keyword[i]
    ensures forall i :: 0 <= i < |keyword| ==> s[i] != '=' && s[i] != '<' && s[i] != '>' && s[i] != ')'
  {
    forall i | 0 <= i < |keyword| ensures FoldChar(s[i]) == keyword[i] {
      assert Fold(s[..|keyword|])[i] == FoldChar(s[i]);
    }
    assert forall i :: 0 <= i < |keyword| ==> keyword[i] in keyword;
  }

  lemma SpacesThenParts(s: string, keyword: string) returns (n: nat)
    requires SpacesThen(s, keyword).Some? && (forall c :: c in keyword ==> 'A' <= c <= 'Z')
    ensures 0 < n && n + |keyword| <= |s| && SpacesThen(s, keyword) == Some(s[n + |keyword|..])
    ensures forall i :: 0 <= i < n ==> IsSpace(s[i])
    ensures forall i :: n <= i < n + |keyword| ==> !IsSpace(s[i]) && FoldChar(s[i]) == keyword[i - n]
    ensures forall i :: 0 <= i < n + |keyword| ==> s[i] != '=' && s[i] != '<' && s[i] != '>' && s[i] != ')'
  {
    n := SpaceRun(s);
    SpaceRunIsMaximal(s);
    LettersOf(s[n..], keyword);
    forall i | n <= i < n + |keyword|
      ensures !IsSpace(s[i]) && FoldChar(s[i]) == keyword[i - n]
      ensures s[i] != '=' && s[i] != '<' && s[i] != '>' && s[i] != ')'
    {
      assert s[n..][i - n] == s[i];
    }
  }

  lemma OrderByShape(s: string) returns (a: nat, e: nat)
    requires IsOrderBy(s)
    ensures ShowsOrder(s, a, e)
  {
    a := SpacesThenParts(s, "ORDER");
    e := a + 4;
    var r := s[a + 5..];
    var b := SpacesThenParts(r, "BY");
    assert |r| == b + 2;
    assert s[e + 1] == r[0] && s[|s| - 1] == r[|r| - 1];
    forall i | a + 5 <= i < |s| ensures s[i] != '=' && s[i] != '<' && s[i] != '>' { assert s[i] == r[i - (a + 5)]; }
  }

  lemma {:induction false} Tried(s: string, operators: seq<string>)
    requires TryOperators(s, operators).Some?
    ensures var (operator, value) := TryOperators(s, operators).value;
            operator in operators && operator <= s && ValueText(s[|operator|..]) == Some(value)
  {
    if !(operators[0] <= s && ValueText(s[|operators[0]|..]).Some?) { Tried(s, operators[1..]); }
  }

  predicate EndsOperator(c: char) { c == '=' || c == '<' || c == '>' }

  lemma OperatorLast(operator: string)
    requires operator in OPERATORS
    ensures operator != "" && EndsOperator(operator[|operator| - 1])
  {
  }

  lemma ValueShape(u: string, value: string) returns (t: nat)
    requires ValueText(u) == Some(value) && u != "" && !IsSpace(u[|u| - 1])
    ensures t < |u| && (forall i :: 0 <= i < t ==> IsSpace(u[i])) && value == u[t..] && Strip(value) == value
  {
    t := SpaceRun(u);
    SpaceRunIsMaximal(u);
    StripTrimmed(u[t..]);
  }

  /** What is read behind an operator: whitespace and the value, to the end. */
  predicate ReadsBehind(s: string, j: nat, t: nat, value: string) {
    && 0 < j <= t < |s| && EndsOperator(s[j - 1]) && (forall i :: j <= i < t ==> IsSpace(s[i])) && value == s[t..]
  }

  lemma ValueBehind(s: string, operator: string, u: string, value: string) returns (j: nat, t: nat)
    requires operator != "" && EndsOperator(operator[|operator| - 1]) && operator <= s && u == s[|operator|..]
    requires u != "" && !IsSpace(u[|u| - 1]) && ValueText(u) == Some(value)
    ensures ReadsBehind(s, j, t, value) && Strip(value) == value
  {
    var v := ValueShape(u, value);
    j, t := |operator|, |operator| + v;
    Behind(s, operator, v);
  }

  lemma Behind(s: string, operator: string, v: nat)
    requires operator != "" && EndsOperator(operator[|operator| - 1]) && operator <= s && v < |s| - |operator|
    requires forall i :: 0 <= i < v ==> IsSpace(s[|operator|..][i])
    ensures ReadsBehind(s, |operator|, |operator| + v, s[|operator|..][v..])
  {
    ShiftedRun(s, |operator|, v);
  }

  lemma ShiftedRun(s: string, j: nat, v: nat)
    requires j <= |s| && v <= |s[j..]| && forall i :: 0 <= i < v ==> IsSpace(s[j..][i])
    ensures s[j..][v..] == s[j + v..] && forall i :: j <= i < j + v ==> IsSpace(s[i])
  {
    forall i | j <= i < j + v ensures IsSpace(s[i]) { assert s[i] == s[j..][i - j]; }
  }

  lemma SomeValue(u: string)
    requires ValueText(u).Some?
    ensures u != ""
  {
  }

  lemma UnquotedPart(v: string)
    ensures forall c :: c in v ==> c in Unquote(v) || c == '"' || c == '\''
  {
    if Unquote(v) != v && |v| > 1 {
      assert v == [v[0]] + v[1..|v| - 1] + [v[|v| - 1]];
    }
  }

  lemma CoercedHasNoSpaces(host: Host, v: string, kind: Kind)
    requires Coerce(host, v, kind).Ok? && Strip(v) == v
    ensures NoSpaces(v)
  {
    UnquotedPart(v);
    ValuePlain(Unquote(v));
  }

  lemma ValuePlain(u: string)
    requires ValueChars(u)
    ensures NoSpaces(u)
  {
    PlainValue(u);
  }

  lemma ListEnds(text: string)
    requires InClause(text).Some?
    ensures text != "" && text[|text| - 1] == ')'
  {
    var n := NameRun(Fold(text));
    var rest := SpacesThen(text[n..], "IN").value;
    var list := rest[SpaceRun(rest)..];
    assert list == text[|text| - |list|..];
  }

  /** A clause that reads ends in a parenthesis, or in one word behind an operator. */
  predicate EndsAsClause(p: string, j: nat, t: nat) {
    && p != ""
    && (p[|p| - 1] == ')'
        || (0 < j <= t < |p| && EndsOperator(p[j - 1]) && (forall i :: j <= i < t ==> IsSpace(p[i]))
            && forall i :: t <= i < |p| ==> !IsSpace(p[i])))
  }

  lemma ClauseEnds(host: Host, p: string) returns (j: nat, t: nat)
    requires ParseClause(host, p).Ok? && p != "" && !IsSpace(p[|p| - 1])
    ensures EndsAsClause(p, j, t)
  {
    j, t := 0, 0;
    if InClause(p).Some? {
      ListEnds(p);
    } else {
      j, t := ComparisonEnds(host, p);
    }
  }

  lemma ComparisonRead(host: Host, p: string) returns (operator: string, value: string, kind: Kind)
    requires ParseClause(host, p).Ok? && InClause(p).None?
    ensures operator != "" && EndsOperator(operator[|operator| - 1]) && operator <= OperatorText(p)
    ensures ValueText(OperatorText(p)[|operator|..]) == Some(value) && Coerce(host, value, kind).Ok?
  {
    var s := OperatorText(p);
    var field := Comparison(p).value.0;
    operator, value := Comparison(p).value.1, Comparison(p).value.2;
    Tried(s, OPERATORS);
    OperatorLast(operator);
    kind := CheckedKind(field, operator).value;
    OneCoerced(host, value, kind);
  }

  lemma OperatorTextIsEnd(p: string)
    ensures |OperatorText(p)| <= |p| && OperatorText(p) == p[|p| - |OperatorText(p)|..]
  {
  }

  lemma ComparisonEnds(host: Host, p: string) returns (j: nat, t: nat)
    requires ParseClause(host, p).Ok? && InClause(p).None? && p != "" && !IsSpace(p[|p| - 1])
    ensures EndsAsClause(p, j, t)
  {
    var operator, value, kind := ComparisonRead(host, p);
    OperatorTextIsEnd(p);
    j, t := ComparisonTail(host, p, OperatorText(p), operator, value, kind);
  }

  lemma ComparisonTail(host: Host, p: string, s: string, operator: string, value: string, kind: Kind)
      returns (j: nat, t: nat)
    requires |s| <= |p| && s == p[|p| - |s|..] && p != "" && !IsSpace(p[|p| - 1])
    requires operator != "" && EndsOperator(operator[|operator| - 1]) && operator <= s
    requires ValueText(s[|operator|..]) == Some(value) && Coerce(host, value, kind).Ok?
    ensures EndsAsClause(p, j, t)
  {
    var u := s[|operator|..];
    SomeValue(u);
    assert u[|u| - 1] == s[|s| - 1];
    j, t := ValueBehind(s, operator, u, value);
    CoercedHasNoSpaces(host, value, kind);
    j, t := ShiftedEnd(p, s, j, t, value);
  }

  lemma ShiftedEnd(p: string, s: string, j: nat, t: nat, value: string) returns (j2: nat, t2: nat)
    requires |s| <= |p| && s == p[|p| - |s|..] && ReadsBehind(s, j, t, value) && NoSpaces(value)
    ensures EndsAsClause(p, j2, t2)
  {
    var k := |p| - |s|;
    j2, t2 := k + j, k + t;
    assert forall i :: k <= i < |p| ==> p[i] == s[i - k];
    forall i | t2 <= i < |p| ensures !IsSpace(p[i]) { assert p[i] == value[i - t2] && value[i - t2] in value; }
  }

  lemma OneCoerced(host: Host, raw: string, kind: Kind)
    ensures CoerceAll(host, [raw], kind).Ok? ==> Coerce(host, raw, kind).Ok?
  {
  }

  /** Such an ending does not show the word ORDER behind all its operators. */
  lemma EndShowsNoOrder(p: string, s: string, m: nat, j: nat, t: nat)
    requires m < |s| && p == s[m..] && EndsAsClause(p, j, t)
    ensures forall a: nat, e: nat :: !ShowsOrder(s, a, e)
  {
    assert p[|p| - 1] == s[|s| - 1];
    assert 0 < j <= |p| ==> p[j - 1] == s[m + j - 1];
    assert forall i :: m + j <= i < m + t && i < |s| ==> s[i] == p[i - m];
    assert forall i :: m + t <= i < |s| ==> s[i] == p[i - m];
  }

  // ---- the last part

  predicate LastIsEnd(pieces: seq<string>, s: string, m: nat) {
    pieces != [] && m < |s| && pieces[|pieces| - 1] == s[m..]
  }

  /** The last piece of a text is an end of it. */
  lemma {:induction false} LastPiece(s: string) returns (m: nat)
    requires s != "" && !IsSpace(s[|s| - 1])
    ensures LastIsEnd(SplitAnd(s), s, m)
    decreases |s|
  {
    if AndHere(s).Some? {
      var k := AndHereSuffix(s);
      EmptyRest(s);
      m := LastPiece(s[k..]);
      m := LastOfRest(s, k, m);
    } else if |s| == 1 {
      m := 0;
      OneChar(s);
    } else {
      m := LastPiece(s[1..]);
      m := LastOfLater(s, m);
    }
  }

  lemma EmptyRest(s: string)
    requires s != "" && !IsSpace(s[|s| - 1]) && AndHere(s).Some?
    ensures AndHere(s).value != ""
  {
    var more := SpacesThen(s, "AND").value;
    var k := AndHereSuffix(s);
  }

  lemma LastOfRest(s: string, k: nat, n: nat) returns (m: nat)
    requires k <= |s| && AndHere(s) == Some(s[k..]) && LastIsEnd(SplitAnd(s[k..]), s[k..], n)
    ensures LastIsEnd(SplitAnd(s), s, m)
  {
    SplitsAt(s, s[k..]);
    m := k + n;
    assert s[k..][n..] == s[m..];
  }

  lemma OneChar(s: string)
    requires |s| == 1 && AndHere(s).None?
    ensures LastIsEnd(SplitAnd(s), s, 0)
  {
    SplitsLater(s);
    assert s[1..] == "" && SplitAnd("") == [""];
    assert [s[0]] + "" == s == s[0..];
  }

  lemma LastOfLater(s: string, n: nat) returns (m: nat)
    requires s != "" && AndHere(s).None? && LastIsEnd(SplitAnd(s[1..]), s[1..], n)
    ensures LastIsEnd(SplitAnd(s), s, m)
  {
    SplitsLater(s);
    if |SplitAnd(s[1..])| == 1 {
      OnePieceIsAll(s[1..]);
      m := 0;
      assert [s[0]] + s[1..] == s == s[0..];
    } else {
      m := n + 1;
      assert s[1..][n..] == s[m..];
    }
  }

  lemma {:induction false} OnePieceIsAll(s: string)
    requires |SplitAnd(s)| == 1
    ensures SplitAnd(s) == [s]
    decreases |s|
  {
    if s != "" {
      if AndHere(s).None? {
        OnePieceIsAll(s[1..]);
        assert [s[0]] + s[1..] == s;
      }
    }
  }

  lemma {:induction false} TrimmedLast(pieces: seq<string>)
    requires pieces != [] && Strip(pieces[|pieces| - 1]) != ""
    ensures Trimmed(pieces) != [] && Trimmed(pieces)[|Trimmed(pieces)| - 1] == Strip(pieces[|pieces| - 1])
  {
    if |pieces| > 1 { TrimmedLast(pieces[1..]); }
  }

  lemma {:induction false} EveryPartParses(host: Host, parts: seq<string>, part: string)
    requires ParseClauses(host, parts).Ok? && part in parts
    ensures ParseClause(host, part).Ok?
  {
    if parts[0] != part { EveryPartParses(host, parts[1..], part); }
  }

  /** The last part of a text is an end of it. */
  lemma LastPart(host: Host, s: string) returns (m: nat)
    requires Edged(s) && ParseClauses(host, Trimmed(SplitAnd(s))).Ok?
    ensures m < |s| && ParseClause(host, s[m..]).Ok?
  {
    var k := LastPiece(s);
    m := LastTrimmed(s, SplitAnd(s), k);
    EveryPartParses(host, Trimmed(SplitAnd(s)), s[m..]);
  }

  lemma LastTrimmed(s: string, pieces: seq<string>, k: nat) returns (m: nat)
    requires LastIsEnd(pieces, s, k) && !IsSpace(s[|s| - 1])
    ensures m < |s| && s[m..] in Trimmed(pieces)
  {
    var last := s[k..];
    LastStrips(last);
    TrimmedLast(pieces);
    m := k + SpaceRun(last);
    assert last[SpaceRun(last)..] == s[m..];
  }

  lemma LastStrips(last: string)
    requires last != "" && !IsSpace(last[|last| - 1])
    ensures SpaceRun(last) < |last| && Strip(last) == last[SpaceRun(last)..]
  {
    RunStops(last);
    var t := last[SpaceRun(last)..];
    assert t[|t| - 1] == last[|last| - 1] && StripRight(t) == t;
  }

  lemma {:induction false} RunStops(s: string)
    requires s != "" && !IsSpace(s[|s| - 1])
    ensures SpaceRun(s) < |s|
  {
    if IsSpace(s[0]) { RunStops(s[1..]); }
  }

  /** Text that reads as clauses does not end in ORDER BY. */
  lemma ReadEndsWithoutOrder(host: Host, s: string)
    requires Edged(s) && ParseClauses(host, Trimmed(SplitAnd(s))).Ok?
    ensures NoOrderTail(s)
  {
    var m := LastPart(host, s);
    assert s[m..][|s[m..]| - 1] == s[|s| - 1];
    var j, t := ClauseEnds(host, s[m..]);
    NoTail(s, m, j, t);
  }

  lemma NoTail(s: string, m: nat, j: nat, t: nat)
    requires m < |s| && EndsAsClause(s[m..], j, t)
    ensures NoOrderTail(s)
  {
    EndShowsNoOrder(s[m..], s, m, j, t);
    forall k | 0 <= k <= |s| ensures !IsOrderBy(s[k..]) {
      if IsOrderBy(s[k..]) { ShowsItsOrder(s, k); }
    }
  }

  lemma ShowsItsOrder(s: string, k: nat)
    requires k <= |s| && IsOrderBy(s[k..])
    ensures exists a: nat, e: nat :: ShowsOrder(s, a, e)
  {
    var a, e := OrderByShape(s[k..]);
    ShownLater(s, k, a, e);
  }

  lemma ShownLater(s: string, k: nat, a: nat, e: nat)
    requires k <= |s| && ShowsOrder(s[k..], a, e)
    ensures ShowsOrder(s, k + a, k + e)
  {
    assert forall i :: k <= i < |s| ==> s[i] == s[k..][i - k];
  }

  // ---- accepted text does not begin with ORDER BY

  /** The text is ORDER, whitespace, BY and whatever follows. */
  predicate BeginsOrderBy(s: string) { StartsWithFold(s, "ORDER") && SpacesThen(s[5..], "BY").Some? }

  /** The first piece keeps every beginning in which nothing splits. */
  lemma {:induction false} FirstPieceKeeps(s: string, n: nat)
    requires n <= |s| && forall i :: 0 <= i < n ==> AndHere(s[i..]) == None
    ensures s[..n] <= SplitAnd(s)[0]
  {
    if n > 0 {
      assert s[0..] == s;
      forall i | 0 <= i < n - 1 ensures AndHere(s[1..][i..]) == None { assert s[1..][i..] == s[i + 1..]; }
      FirstPieceKeeps(s[1..], n - 1);
      SplitsLater(s);
      assert s[..n] == [s[0]] + s[1..][..n - 1];
    }
  }

  lemma NoAndHere(s: string)
    requires s == "" || !IsSpace(s[0])
    ensures AndHere(s) == None
  {
  }

  lemma NoAndBefore(w: string, z: string)
    requires IsOnlySpace(w) && z != "" && !IsSpace(z[0]) && FoldChar(z[0]) != 'A'
    ensures AndHere(w + z) == None
  {
    RunThenRest(w, z);
    if |z| >= 3 { assert Fold(z[..3])[0] == FoldChar(z[0]); }
  }

  /** The parts of ORDER BY at the start of a text. */
  lemma OrderByStart(s: string) returns (b: nat)
    requires BeginsOrderBy(s)
    ensures 5 < b < |s| && IsOnlySpace(s[5..b]) && !IsSpace(s[b]) && FoldChar(s[b]) == 'B'
    ensures forall i :: 0 <= i < 5 ==> !IsSpace(s[i]) && IsLetter(s[i]) && IsNameChar(FoldChar(s[i]))
  {
    LettersOf(s, "ORDER");
    var r := s[5..];
    var n := SpacesThenParts(r, "BY");
    b := 5 + n;
    assert s[b] == r[n] && "BY"[0] == 'B';
    forall c | c in s[5..b] ensures IsSpace(c) {
      var i :| 5 <= i < b && s[i] == c;
      assert r[i - 5] == c;
    }
  }

  lemma FirstPieceShowsOrder(s: string, b: nat)
    requires 5 < b < |s| && IsOnlySpace(s[5..b]) && !IsSpace(s[b]) && FoldChar(s[b]) == 'B'
    requires forall i :: 0 <= i < 5 ==> !IsSpace(s[i])
    ensures s[..b + 1] <= SplitAnd(s)[0]
  {
    forall i | 0 <= i < b + 1 ensures AndHere(s[i..]) == None {
      if i < 5 || i == b {
        NoAndHere(s[i..]);
      } else {
        assert s[i..] == s[i..b] + s[b..];
        forall c | c in s[i..b] ensures IsSpace(c) { assert c in s[5..b]; }
        NoAndBefore(s[i..b], s[b..]);
      }
    }
    FirstPieceKeeps(s, b + 1);
  }

  /** Text that shows ORDER and a word with B is no clause. */
  lemma OrderIsNoClause(host: Host, p: string, b: nat)
    requires 5 < b < |p| && IsOnlySpace(p[5..b]) && !IsSpace(p[b]) && FoldChar(p[b]) == 'B'
    requires forall i :: 0 <= i < 5 ==> IsLetter(p[i]) && IsNameChar(FoldChar(p[i]))
    ensures ParseClause(host, p).Err?
  {
    var name, rest := p[..5], p[5..];
    assert p == name + rest && rest == p[5..b] + p[b..];
    assert rest[0] in p[5..b];
    SpaceIsNoName(rest[0]);
    forall c | c in name ensures IsNameChar(c) { }
    SpelledName(name, rest);
    RunThenRest(p[5..b], p[b..]);
    NoInHere(p[5..b], p[b..]);
    assert OperatorText(p) == p[b..];
    NoOperatorHere(p[b..], OPERATORS);
  }

  lemma {:induction false} NoOperatorHere(s: string, operators: seq<string>)
    requires s != "" && FoldChar(s[0]) == 'B' && forall o :: o in operators ==> o in OPERATORS
    ensures TryOperators(s, operators) == None
  {
    if operators != [] {
      assert operators[0] in operators;
      OperatorStarts(operators[0]);
      assert s[0] == 'B' || s[0] == 'b';
      NotOperator(operators[0]);
      NoOperatorHere(s, operators[1..]);
    }
  }

  lemma NotOperator(operator: string)
    requires operator in OPERATORS
    ensures operator != "" && operator[0] != 'B' && operator[0] != 'b'
  {
  }

  lemma {:induction false} TrimmedFirst(pieces: seq<string>)
    requires pieces != [] && Strip(pieces[0]) != ""
    ensures Strip(pieces[0]) in Trimmed(pieces)
  {
  }

  lemma StripKeepsBeginning(s: string, n: nat)
    requires 0 < n <= |s| && !IsSpace(s[0]) && !IsSpace(s[n - 1])
    ensures s[..n] <= Strip(s)
  {
    assert SpaceRun(s) == 0 && s[0..] == s;
    var m := StripRightParts(s);
    forall i | m <= i < |s| ensures IsSpace(s[i]) { assert s[m..][i - m] in s[m..]; }
  }

  /** Text that reads as clauses does not begin with ORDER BY. */
  lemma ReadBeginsWithoutOrder(host: Host, s: string)
    requires Edged(s) && ParseClauses(host, Trimmed(SplitAnd(s))).Ok?
    ensures !BeginsOrderBy(s)
  {
    if BeginsOrderBy(s) {
      var b := OrderByStart(s);
      FirstPieceShowsOrder(s, b);
      BadBeginning(host, s, SplitAnd(s), b);
    }
  }

  lemma BadBeginning(host: Host, s: string, pieces: seq<string>, b: nat)
    requires 5 < b < |s| && IsOnlySpace(s[5..b]) && !IsSpace(s[b]) && FoldChar(s[b]) == 'B'
    requires forall i :: 0 <= i < 5 ==> !IsSpace(s[i]) && IsLetter(s[i]) && IsNameChar(FoldChar(s[i]))
    requires pieces != [] && s[..b + 1] <= pieces[0]
    ensures ParseClauses(host, Trimmed(pieces)).Err?
  {
    var first := pieces[0];
    assert first[..b + 1] == s[..b + 1];
    StripKeepsBeginning(first, b + 1);
    var p := Strip(first);
    assert p[..b + 1] == s[..b + 1];
    assert p[5..b] == s[5..b] && p[b] == s[b];
    OrderIsNoClause(host, p, b);
    TrimmedFirst(pieces);
    JqlRoundTrip.OneBadPart(host, Trimmed(pieces), p);
  }

  // ---- ORDER BY behind accepted text

  lemma SpacesThenRest(s: string, keyword: string)
    requires SpacesThen(s, keyword).Some? && s != "" && !IsSpace(s[|s| - 1])
    ensures var rest := SpacesThen(s, keyword).value;
            |rest| <= |s| && rest == s[|s| - |rest|..] && (rest != "" ==> !IsSpace(rest[|rest| - 1]))
  {
  }

  /** The order text behind ORDER BY, if it is on one line. */
  function TextBehind(rest: string): Option<string> {
    var text := rest[SpaceRun(rest)..];
    if SpaceRun(rest) > 0 && text != "" && '\n' !in text then Some(text) else None
  }

  lemma OrderHereIs(s: string)
    ensures OrderHere(s) == match SpacesThen(s, "ORDER")
                            case None => None
                            case Some(r1) =>
                              match SpacesThen(r1, "BY")
                              case None => None
                              case Some(r2) => TextBehind(r2)
  {
  }

  lemma NoTextBehind(rest: string, y: string)
    requires rest != "" && !IsSpace(rest[|rest| - 1]) && TextBehind(rest) == None
    ensures TextBehind(rest + y) == None
  {
    RunInFront(rest, y);
    var n := SpaceRun(rest);
    assert (rest + y)[n..] == rest[n..] + y;
    assert rest[n..] != "";
  }

  /** Text behind, from a space on, makes no ORDER BY of what was none. */
  lemma NoOrderAcross(s: string, y: string)
    requires s != "" && !IsSpace(s[|s| - 1]) && OrderHere(s) == None && !IsOrderBy(s)
    requires y != "" && IsSpace(y[0]) && SpacesThen(y, "BY") == None
    ensures OrderHere(s + y) == None
  {
    OrderHereIs(s);
    OrderHereIs(s + y);
    SpacesThenExtends(s, y, "ORDER");
    if SpacesThen(s, "ORDER").Some? {
      var r1 := SpacesThen(s, "ORDER").value;
      SpacesThenRest(s, "ORDER");
      NoBehindOrder(r1, y);
    }
  }

  lemma NoBehindOrder(r1: string, y: string)
    requires r1 == "" || !IsSpace(r1[|r1| - 1])
    requires y != "" && IsSpace(y[0]) && SpacesThen(y, "BY") == None && SpacesThen(r1, "BY") != Some("")
    requires SpacesThen(r1, "BY").Some? ==> TextBehind(SpacesThen(r1, "BY").value) == None
    ensures SpacesThen(r1 + y, "BY").Some? ==> TextBehind(SpacesThen(r1 + y, "BY").value) == None
  {
    if r1 == "" {
      assert r1 + y == y;
    } else {
      SpacesThenExtends(r1, y, "BY");
      if SpacesThen(r1, "BY").Some? {
        SpacesThenRest(r1, "BY");
        NoTextBehind(SpacesThen(r1, "BY").value, y);
      }
    }
  }

  lemma FindOrderLater(s: string)
    requires s != "" && OrderHere(s) == None
    ensures FindOrder(s) == Extend([s[0]], FindOrder(s[1..]))
  {
  }

  lemma BehindStep(s: string, y: string)
    requires s != "" && OrderHere(s + y) == None && FindOrder(s[1..] + y) == Extend(s[1..], FindOrder(y))
    ensures FindOrder(s + y) == Extend(s, FindOrder(y))
  {
    FindOrderLater(s + y);
    assert (s + y)[1..] == s[1..] + y;
    if FindOrder(y).Some? { HeadBack(s, FindOrder(y).value.0); }
  }

  lemma BehindEnd(y: string)
    ensures FindOrder("" + y) == Extend("", FindOrder(y))
  {
    assert "" + y == y;
    assert FindOrder(y).Some? ==> "" + FindOrder(y).value.0 == FindOrder(y).value.0;
  }

  lemma TailOfNoTail(s: string)
    requires s != "" && NoOrderTail(s)
    ensures !IsOrderBy(s) && NoOrderTail(s[1..])
  {
    assert s[0..] == s;
    forall k | 0 <= k <= |s[1..]| ensures !IsOrderBy(s[1..][k..]) { assert s[1..][k..] == s[k + 1..]; }
  }

  /** What is found in text behind is found there, with the text in front before it. */
  lemma {:induction false} FindOrderBehind(s: string, y: string)
    requires s == "" || !IsSpace(s[|s| - 1])
    requires FindOrder(s) == None && NoOrderTail(s)
    requires y != "" && IsSpace(y[0]) && SpacesThen(y, "BY") == None
    ensures FindOrder(s + y) == Extend(s, FindOrder(y))
  {
    if s == "" {
      BehindEnd(y);
    } else {
      TailOfNoTail(s);
      FindsNoneHere(s);
      NoOrderAcross(s, y);
      FindOrderBehind(s[1..], y);
      BehindStep(s, y);
    }
  }

  lemma FindsNoneHere(s: string)
    requires s != "" && FindOrder(s) == None
    ensures OrderHere(s) == None && FindOrder(s[1..]) == None
  {
  }

  // ---- no ORDER BY between the two texts of AND

  lemma NoSpacesThen(w: string, z: string, keyword: string)
    requires IsOnlySpace(w) && z != "" && !IsSpace(z[0]) && keyword != "" && FoldChar(z[0]) != keyword[0]
    ensures SpacesThen(w + z, keyword) == None
  {
    RunThenRest(w, z);
    if |z| >= |keyword| { assert Fold(z[..|keyword|])[0] == FoldChar(z[0]); }
  }

  lemma {:induction false} FindOrderPastSpaces(w: string, z: string)
    requires IsOnlySpace(w) && z != "" && !IsSpace(z[0]) && FindOrder(z) == None && !BeginsOrderBy(z)
    ensures FindOrder(w + z) == None
  {
    if w == "" {
      assert w + z == z;
    } else {
      assert w[0] in w && (w + z)[1..] == w[1..] + z;
      assert forall c :: c in w[1..] ==> c in w;
      FindOrderPastSpaces(w[1..], z);
      OrderHereIs(w + z);
      OrderIsBegun(w, z);
      FindOrderLater(w + z);
    }
  }

  lemma OrderIsBegun(w: string, z: string)
    requires w != "" && IsOnlySpace(w) && z != "" && !IsSpace(z[0]) && !BeginsOrderBy(z)
    ensures SpacesThen(w + z, "ORDER").Some? ==> SpacesThen(SpacesThen(w + z, "ORDER").value, "BY") == None
  {
    RunThenRest(w, z);
    if StartsWithFold(z, "ORDER") { assert (w + z)[|w| + 5..] == z[5..]; }
  }

  lemma FindOrderPastAnd(x: string, before: nat, after: nat, t: string)
    requires IsAnd(x, before, after) && t != "" && !IsSpace(t[0]) && FindOrder(t) == None && !BeginsOrderBy(t)
    ensures FindOrder(x + t) == None && SpacesThen(x + t, "BY") == None && IsSpace(x[0])
  {
    var w, kw, v := x[..before], x[before..before + 3], x[before + 3..];
    AndParts(x, before, after, t);
    assert Fold(kw)[0] == FoldChar(kw[0]) && Fold(kw)[1] == FoldChar(kw[1]) && Fold(kw)[2] == FoldChar(kw[2]);
    assert NoSpaces(kw);
    FindOrderPastSpaces(v, t);
    FindOrderSkips(kw, v + t);
    NotOrder(kw, v + t);
    FindOrderPastSpaces(w, kw + (v + t));
    NoSpacesThen(w, kw + (v + t), "BY");
  }

  lemma NotOrder(kw: string, rest: string)
    requires |kw| == 3 && Fold(kw) == "AND"
    ensures !BeginsOrderBy(kw + rest) && FoldChar((kw + rest)[0]) == 'A'
  {
    assert Fold(kw)[0] == FoldChar(kw[0]);
    if |kw + rest| >= 5 { assert Fold((kw + rest)[..5])[0] == FoldChar(kw[0]); }
  }

  // ---- the law of AND

  lemma JoinedHasNoOrder(host: Host, a: string, x: string, before: nat, after: nat, b: string)
    requires IsAnd(x, before, after) && Edged(a) && Edged(b) && FindOrder(a) == None && FindOrder(b) == None
    requires ParseClauses(host, Trimmed(SplitAnd(a))).Ok? && ParseClauses(host, Trimmed(SplitAnd(b))).Ok?
    ensures FindOrder(a + (x + b)) == None
  {
    ReadEndsWithoutOrder(host, a);
    ReadBeginsWithoutOrder(host, b);
    FindOrderPastAnd(x, before, after, b);
    FindOrderBehind(a, x + b);
  }

  /** If `a` and `b` are read, neither is blank and neither has an ORDER BY, then with any spelling of AND between them
      the clauses are those of `a` followed by those of `b`, under the default order, exactly when `a` does not itself
      end in the word AND, there are at most eight clauses, and the text fits. */
  lemma AndLaw(host: Host, a: string, x: string, before: nat, after: nat, b: string)
    requires HostAgrees(host) && IsAnd(x, before, after)
    requires Parse(host, a).Ok? && Parse(host, b).Ok? && Strip(a) != "" && Strip(b) != ""
    requires FindOrder(Strip(a)).None? && FindOrder(Strip(b)).None?
    ensures var cs, ds, t := Parse(host, a).value.clauses, Parse(host, b).value.clauses, Strip(a + x + b);
            if |t| <= 512 && |cs| + |ds| <= 8 && !EndsInAnd(Strip(a)) then
              Parse(host, a + x + b) == Ok(Query(t, cs + ds, [("priority_score", "DESC"), ("opened_at", "ASC")]))
            else Parse(host, a + x + b).Err?
  {
    var y, m, n := StrippedJoin(a, x, before, after, b);
    UnorderedParts(host, a);
    UnorderedParts(host, b);
    JoinedHasNoOrder(host, Strip(a), y, m, n, Strip(b));
    AndJoinsClauses(host, a, x, before, after, b);
  }

  /** In particular with the word as it is printed. */
  lemma PlainAndLaw(host: Host, a: string, b: string)
    requires HostAgrees(host) && Parse(host, a).Ok? && Parse(host, b).Ok? && Strip(a) != "" && Strip(b) != ""
    requires FindOrder(Strip(a)).None? && FindOrder(Strip(b)).None? && !EndsInAnd(Strip(a))
    requires |Strip(a + " AND " + b)| <= 512
    requires |Parse(host, a).value.clauses| + |Parse(host, b).value.clauses| <= 8
    ensures Parse(host, a + " AND " + b).Ok?
    ensures Parse(host, a + " AND " + b).value.clauses
         == Parse(host, a).value.clauses + Parse(host, b).value.clauses
  {
    PlainAnd();
    AndLaw(host, a, " AND ", 1, 1, b);
  }

  lemma PlainAnd()
    ensures IsAnd(" AND ", 1, 1)
  {
    var x := " AND ";
    assert x[..1] == " " && x[1..4] == "AND" && x[4..] == " " && Fold("AND") == "AND";
    assert forall c :: c in " " ==> IsSpace(c);
  }

  // ---- the law of ORDER BY

  /** Any spelling of ORDER BY with whitespace before, between and after its words. */
  datatype OrderWords = OrderWords(before: string, order: string, between: string, with: string, after: string)

  predicate IsOrderWords(x: OrderWords) {
    && x.before != "" && IsOnlySpace(x.before) && x.between != "" && IsOnlySpace(x.between)
    && x.after != "" && IsOnlySpace(x.after)
    && |x.order| == 5 && Fold(x.order) == "ORDER" && |x.with| == 2 && Fold(x.with) == "BY"
  }

  function OrderText(x: OrderWords, o: string): string {
    x.before + (x.order + (x.between + (x.with + (x.after + o))))
  }

  lemma WordThenRest(w: string, keyword: string, word: string, rest: string)
    requires w != "" && IsOnlySpace(w) && |word| == |keyword| > 0 && Fold(word) == keyword
    requires forall c :: c in keyword ==> 'A' <= c <= 'Z'
    ensures SpacesThen(w + (word + rest), keyword) == Some(rest)
  {
    var s := word + rest;
    assert s[..|keyword|] == word;
    LettersOf(s, keyword);
    RunThenRest(w, s);
    assert (w + s)[|w| + |keyword|..] == rest;
  }

  lemma OrderTextIsHere(x: OrderWords, o: string)
    requires IsOrderWords(x) && Edged(o) && '\n' !in o
    ensures OrderHere(OrderText(x, o)) == Some(o)
  {
    var r2 := x.after + o;
    var r1 := x.between + (x.with + r2);
    OrderHereIs(OrderText(x, o));
    WordThenRest(x.before, "ORDER", x.order, r1);
    WordThenRest(x.between, "BY", x.with, r2);
    RunThenRest(x.after, o);
  }

  lemma OrderTextStarts(x: OrderWords, o: string)
    requires IsOrderWords(x)
    ensures OrderText(x, o) != "" && IsSpace(OrderText(x, o)[0]) && SpacesThen(OrderText(x, o), "BY") == None
  {
    var z := x.order + (x.between + (x.with + (x.after + o)));
    assert Fold(x.order)[0] == FoldChar(x.order[0]) && x.before[0] in x.before && z[0] == x.order[0];
    LettersOf(z, "ORDER") by { assert z[..5] == x.order; }
    NoSpacesThen(x.before, z, "BY");
  }

  lemma OrderSplitsHere(a: string, x: OrderWords, o: string)
    requires Edged(a) && FindOrder(a) == None && NoOrderTail(a) && IsOrderWords(x) && Edged(o) && '\n' !in o
    ensures FindOrder(a + OrderText(x, o)) == Some((a, o))
  {
    OrderTextIsHere(x, o);
    OrderTextStarts(x, o);
    FindOrderBehind(a, OrderText(x, o));
    assert a + "" == a;
  }

  lemma CleanWordOf(host: Host, word: string, keyword: string)
    requires |word| == |keyword| && Fold(word) == keyword && (keyword == "ORDER" || keyword == "BY")
    ensures Clean(host, word)
  {
    forall c | c in word ensures IsWord(host, c) && c as int < 128 {
      var i :| 0 <= i < |word| && word[i] == c;
      assert Fold(word)[i] == FoldChar(c) && keyword[i] in keyword;
    }
    CleanWord(host, word);
  }

  lemma OrderTextClean(host: Host, a: string, x: OrderWords, o: string)
    requires HostAgrees(host) && Clean(host, a) && Clean(host, o) && IsOrderWords(x)
    ensures Clean(host, a + OrderText(x, o))
  {
    CleanWordOf(host, x.order, "ORDER");
    CleanWordOf(host, x.with, "BY");
    CleanAround(host, x.with, x.after, o);
    CleanAround(host, x.order, x.between, x.with + x.after + o);
    var z := x.order + x.between + (x.with + x.after + o);
    CleanAround(host, a, x.before, z);
    OrderTextSpelling(a, x, o);
  }

  lemma OrderTextSpelling(a: string, x: OrderWords, o: string)
    ensures a + x.before + (x.order + x.between + (x.with + x.after + o)) == a + OrderText(x, o)
  {
  }

  /** The entries of an order text. */
  function OrderOf(o: string): Result<Order, JqlError> {
    var parts := Trimmed(SplitOn(o, ','));
    if parts == [] then Err(Invalid) else ParseOrderParts(parts)
  }

  function UnderOrder(text: string, cs: seq<Clause>, order: Result<Order, JqlError>): Result<Query, JqlError> {
    if order.Ok? then Ok(Query(text, cs, order.value)) else Err(order.error)
  }

  /** If `a` is read and has no ORDER BY, then with any spelling of ORDER BY and an acceptable order text behind it the
      clauses are those of `a`, under the order the text says, or it is refused for that order or for its length. */
  lemma OrderLaw(host: Host, a: string, x: OrderWords, o: string)
    requires HostAgrees(host) && Parse(host, a).Ok? && Edged(a) && FindOrder(a) == None
    requires IsOrderWords(x) && Edged(o) && '\n' !in o && Clean(host, o)
    ensures var text := a + OrderText(x, o);
            if |text| > 512 then Parse(host, text) == Err(TooLong)
            else
              Parse(host, text) == UnderOrder(text, Parse(host, a).value.clauses, OrderOf(o))
  {
    var text := a + OrderText(x, o);
    StripTrimmed(a);
    StripTrimmed(o);
    UnorderedParts(host, a);
    EndsEdged(a, x, o);
    StripTrimmed(text);
    if |text| <= MAX_LENGTH {
      ReadEndsWithoutOrder(host, a);
      OrderSplitsHere(a, x, o);
      OrderTextClean(host, a, x, o);
      ReadsOrdered(host, a, text, o, Parse(host, a).value.clauses);
    }
  }

  lemma EndsEdged(a: string, x: OrderWords, o: string)
    requires Edged(a) && Edged(o)
    ensures Edged(a + OrderText(x, o))
  {
  }

  lemma ReadsOrdered(host: Host, a: string, text: string, o: string, cs: seq<Clause>)
    requires text != "" && Strip(text) == text && |text| <= MAX_LENGTH && Clean(host, text)
    requires FindOrder(text) == Some((a, o)) && Strip(a) == a && Strip(o) == o && !StrayParen(host, a, false)
    requires |cs| <= MAX_CLAUSES && ParseClauses(host, Trimmed(SplitAnd(a))) == Ok(cs)
    ensures Parse(host, text) == UnderOrder(text, cs, OrderOf(o))
  {
    SplitsWithOrder(a, text, o);
    if OrderOf(o).Ok? { ReadsUnder(host, a, text, cs, OrderOf(o).value); }
  }

  lemma SplitsWithOrder(a: string, text: string, o: string)
    requires FindOrder(text) == Some((a, o)) && Strip(a) == a && Strip(o) == o
    ensures SplitOrderBy(text) == if OrderOf(o).Ok? then Ok((a, OrderOf(o).value)) else Err(OrderOf(o).error)
  {
  }

  lemma ReadsUnder(host: Host, a: string, text: string, cs: seq<Clause>, order: Order)
    requires text != "" && Strip(text) == text && |text| <= MAX_LENGTH && Clean(host, text)
    requires SplitOrderBy(text) == Ok((a, order)) && !StrayParen(host, a, false)
    requires |cs| <= MAX_CLAUSES && ParseClauses(host, Trimmed(SplitAnd(a))) == Ok(cs)
    ensures Parse(host, text) == Ok(Query(text, cs, order))
  {
    LeavesParts(host, a, text, order);
    PartsRead(host, text, Trimmed(SplitAnd(a)), cs, order);
  }

  lemma LeavesParts(host: Host, a: string, text: string, order: Order)
    requires text != "" && Strip(text) == text && |text| <= MAX_LENGTH && Clean(host, text)
    requires SplitOrderBy(text) == Ok((a, order)) && !StrayParen(host, a, false)
    ensures Parse(host, text) == ParseParts(host, text, Trimmed(SplitAnd(a)), order)
  {
  }

  lemma PartsRead(host: Host, text: string, parts: seq<string>, cs: seq<Clause>, order: Order)
    requires |cs| <= MAX_CLAUSES && ParseClauses(host, parts) == Ok(cs)
    ensures ParseParts(host, text, parts, order) == Ok(Query(text, cs, order))
  {
  }

  // ---- order entries

  /** An entry as it may be spelled. */
  datatype Entry = Entry(before: string, field: string, gap: string, direction: string, after: string)

  predicate IsEntryOf(e: Entry, field: string, direction: string) {
    && IsOnlySpace(e.before) && e.gap != "" && IsOnlySpace(e.gap) && IsOnlySpace(e.after) && e.field == field
    && (field == "priority_score" || field == "opened_at" || field == "updated_at")
    && (direction == "ASC" || direction == "DESC") && Fold(e.direction) == direction
  }

  function EntryText(e: Entry): string { e.before + (e.field + (e.gap + e.direction)) + e.after }

  function EntryCore(e: Entry): string { e.field + (e.gap + e.direction) }

  lemma SortFieldsAre(field: string)
    requires field == "priority_score" || field == "opened_at" || field == "updated_at"
    ensures field in SORT_FIELDS && IsName(field) && ',' !in field && !IsSpace(field[0])
  {
  }

  lemma DirectionChars(direction: string, e: string)
    requires (direction == "ASC" || direction == "DESC") && Fold(e) == direction
    ensures e != "" && NoSpaces(e) && ',' !in e
  {
    forall c | c in e ensures !IsSpace(c) && c != ',' {
      var i :| 0 <= i < |e| && e[i] == c;
      assert Fold(e)[i] == FoldChar(c) && direction[i] in direction;
    }
  }

  lemma EntryReads(e: Entry, field: string, direction: string)
    requires IsEntryOf(e, field, direction)
    ensures ParseOrderPart(EntryCore(e)) == Ok((field, direction))
  {
    var rest := e.gap + e.direction;
    SortFieldsAre(field);
    DirectionChars(direction, e.direction);
    assert rest[0] == e.gap[0] && e.gap[0] in e.gap && e.direction[0] in e.direction;
    SpaceIsNoName(rest[0]);
    SpelledName(field, rest);
    RunThenRest(e.gap, e.direction);
  }

  lemma EntryStrips(e: Entry, field: string, direction: string)
    requires IsEntryOf(e, field, direction)
    ensures Strip(EntryText(e)) == EntryCore(e) && EntryCore(e) != "" && ',' !in EntryText(e)
  {
    SortFieldsAre(field);
    DirectionChars(direction, e.direction);
    assert e.direction[|e.direction| - 1] in e.direction;
    StripWrapped(e.before, EntryCore(e), e.after);
    forall c | c in EntryText(e) ensures c != ',' {
      assert c in e.before || c in e.field || c in e.gap || c in e.direction || c in e.after;
    }
  }

  predicate AreEntriesOf(entries: seq<Entry>, order: Order) {
    |entries| == |order| && forall i :: 0 <= i < |entries| ==> IsEntryOf(entries[i], order[i].0, order[i].1)
  }

  lemma {:induction false} EntriesSplit(entries: seq<Entry>, order: Order)
    requires entries != [] && AreEntriesOf(entries, order)
    ensures Trimmed(SplitOn(Join(Map(entries, EntryText), ","), ',')) == Map(entries, EntryCore)
  {
    var t, rest := EntryText(entries[0]), entries[1..];
    EntryStrips(entries[0], order[0].0, order[0].1);
    HeadAndTailMapped(entries, EntryText);
    HeadAndTailMapped(entries, EntryCore);
    if rest == [] {
      OneTrimmed(t);
    } else {
      EntriesSplit(rest, order[1..]);
      JoinTrimmed(t, Map(rest, EntryText));
    }
  }

  lemma {:induction false} EntriesRead(entries: seq<Entry>, order: Order)
    requires AreEntriesOf(entries, order)
    ensures ParseOrderParts(Map(entries, EntryCore)) == Ok(order)
  {
    if entries != [] {
      var n := |entries| - 1;
      EntriesRead(entries[..n], order[..n]);
      EntryReads(entries[n], order[n].0, order[n].1);
      assert Map(entries, EntryCore)[..n] == Map(entries[..n], EntryCore);
      OneMoreEntry(Map(entries, EntryCore), n, order[..n], order[n]);
      assert order[..n] + [order[n]] == order;
    }
  }

  lemma OneMoreEntry(parts: seq<string>, n: nat, order: Order, entry: (string, string))
    requires |parts| == n + 1 && ParseOrderParts(parts[..n]) == Ok(order) && ParseOrderPart(parts[n]) == Ok(entry)
    ensures ParseOrderParts(parts) == Ok(order + [entry])
  {
  }

  /** An order reads the same with any whitespace around its entries and their two words, and with the directions in
      any letter case. */
  lemma OrderSpellings(entries: seq<Entry>, order: Order)
    requires entries != [] && AreEntriesOf(entries, order)
    ensures OrderOf(Join(Map(entries, EntryText), ",")) == Ok(order)
  {
    EntriesSplit(entries, order);
    EntriesRead(entries, order);
  }
}
