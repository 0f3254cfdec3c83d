/** Which text the forbidden-syntax scan accepts: every piece a query is taken apart into stays
    acceptable, and putting acceptable pieces together around separators is acceptable. */
module JqlClean {
  import opened Basics
  import opened Text
  import opened JqlSyntax

  predicate TimeChar(c: char) { IsDigit(c) || c in "-:.+T" }

  predicate NoDoubleDash(s: string) { forall i {:trigger s[i]} :: 0 < i < |s| && s[i] == '-' ==> s[i - 1] != '-' }

  /** What a printed datetime looks like. */
  predicate IsTimeText(s: string) { s != "" && (forall c :: c in s ==> TimeChar(c)) && NoDoubleDash(s) }

  /** What is assumed of the host: whitespace is never a word character, and a datetime that was read
      prints as ISO text that reads back as the same datetime. */
  ghost predicate HostAgrees(host: Host) {
    && (forall c :: IsSpace(c) ==> !host.wordBeyondAscii(c))
    && (forall s :: host.readTime(s).Some? ==>
          var text := host.printTime(host.readTime(s).value);
          IsTimeText(text) && host.readTime(text) == host.readTime(s))
  }

  ghost predicate Clean(host: Host, s: string) { !Forbidden(host, s) }

  predicate IsSeparator(host: Host, c: char) {
    !IsWord(host, c) && c != ';' && c != '-' && c != '/' && c != '*'
  }

  lemma SeparatorChars(host: Host, c: char)
    requires HostAgrees(host) && (IsSpace(c) || c in ",()'\"=<>!")
    ensures IsSeparator(host, c)
  {
  }

  // ---- pieces

  /** `a` stands in `b` at `i` with no word character next to it. */
  ghost predicate IsolatedAt(host: Host, a: string, b: string, i: nat) {
    && i + |a| <= |b| && b[i..i + |a|] == a
    && (i == 0 || !IsWord(host, b[i - 1]))
    && (i + |a| == |b| || !IsWord(host, b[i + |a|]))
  }

  lemma KeywordCarries(host: Host, a: string, b: string, i: nat, j: nat, keyword: string)
    requires IsolatedAt(host, a, b, i) && j < |a| && KeywordAt(host, a, j, keyword)
    ensures KeywordAt(host, b, i + j, keyword)
  {
    var k := |keyword|;
    assert a[j..][..k] == b[i + j..][..k];
    if j > 0 { assert a[j - 1] == b[i + j - 1]; }
    if j + k < |a| { assert a[j + k] == b[i + j + k]; }
  }

  lemma CleanPiece(host: Host, a: string, b: string, i: nat)
    requires Clean(host, b) && IsolatedAt(host, a, b, i)
    ensures Clean(host, a)
  {
    forall j | 0 <= j < |a| ensures !ForbiddenAt(host, a, j) {
      assert !ForbiddenAt(host, b, i + j);
      assert a[j] == b[i + j];
      if j + 1 < |a| { assert a[j + 1] == b[i + j + 1]; }
      forall keyword | keyword in FORBIDDEN_WORDS && KeywordAt(host, a, j, keyword) ensures false {
        KeywordCarries(host, a, b, i, j, keyword);
      }
    }
  }

  lemma {:induction false} StripRightKeeps(s: string) returns (n: nat)
    ensures n <= |s| && StripRight(s) == s[..n] && (n < |s| ==> IsSpace(s[n]))
  {
    if s != [] && IsSpace(s[|s| - 1]) {
      n := StripRightKeeps(s[..|s| - 1]);
    } else {
      n := |s|;
    }
  }

  lemma CleanStrip(host: Host, s: string)
    requires HostAgrees(host) && Clean(host, s)
    ensures Clean(host, Strip(s))
  {
    var k := SpaceRun(s);
    SpaceRunIsMaximal(s);
    var n := StripRightKeeps(s[k..]);
    assert s[k..k + n] == s[k..][..n];
    if k > 0 { SeparatorChars(host, s[k - 1]); }
    if k + n < |s| { SeparatorChars(host, s[k + n]); }
    CleanPiece(host, Strip(s), s, k);
  }

  lemma {:induction false} CleanTrimmed(host: Host, pieces: seq<string>)
    requires HostAgrees(host) && forall p :: p in pieces ==> Clean(host, p)
    ensures forall p :: p in Trimmed(pieces) ==> Clean(host, p) && p != "" && exists q :: q in pieces && p == Strip(q)
  {
    if pieces != [] {
      assert pieces[0] in pieces && forall q :: q in pieces[1..] ==> q in pieces;
      CleanStrip(host, pieces[0]);
      CleanTrimmed(host, pieces[1..]);
    }
  }

  lemma CleanUnquote(host: Host, s: string)
    requires HostAgrees(host) && Clean(host, s) && ValueChars(Unquote(s))
    ensures Clean(host, Unquote(s))
  {
    if Unquote(s) != s {
      SeparatorChars(host, s[0]);
      SeparatorChars(host, s[|s| - 1]);
      CleanPiece(host, Unquote(s), s, 1);
    }
  }

  // ---- splits

  /** `p` stands in `s` after the first `from` characters, with separators around it. */
  ghost predicate PieceWithin(host: Host, p: string, s: string, from: nat) {
    exists i: nat :: i >= from && IsolatedAt(host, p, s, i)
  }

  lemma PieceShift(host: Host, p: string, s: string, rest: string, from: nat)
    requires |rest| <= |s| && s[|s| - |rest|..] == rest && PieceWithin(host, p, rest, from) && from > 0
    ensures PieceWithin(host, p, s, from)
  {
    var i: nat :| i >= from && IsolatedAt(host, p, rest, i);
    var k := |s| - |rest|;
    assert rest[i..i + |p|] == s[k + i..k + i + |p|];
    assert rest[i - 1] == s[k + i - 1];
    if i + |p| < |rest| { assert rest[i + |p|] == s[k + i + |p|]; }
    assert IsolatedAt(host, p, s, k + i);
  }

  lemma PieceOfSuffix(host: Host, p: string, s: string, k: nat)
    requires 0 < k <= |s| && !IsWord(host, s[k - 1]) && IsolatedAt(host, p, s[k..], 0)
    ensures PieceWithin(host, p, s, 1)
  {
    assert s[k..][0..|p|] == s[k..k + |p|];
    assert IsolatedAt(host, p, s, k);
  }

  /** The first piece is a beginning of the text that ends before a separator or at the end; the
      others stand later in it. */
  ghost predicate SplitFrom(host: Host, pieces: seq<string>, s: string) {
    && pieces != [] && IsolatedAt(host, pieces[0], s, 0)
    && forall k :: 1 <= k < |pieces| ==> PieceWithin(host, pieces[k], s, 1)
  }

  lemma SplitFromCons(host: Host, c: char, pieces: seq<string>, s: string)
    requires SplitFrom(host, pieces, s)
    ensures SplitFrom(host, [[c] + pieces[0]] + pieces[1..], [c] + s)
  {
    var r, t := [[c] + pieces[0]] + pieces[1..], [c] + s;
    var p := pieces[0];
    assert t[0..|p| + 1] == [c] + s[0..|p|];
    if |p| < |s| { assert t[|p| + 1] == s[|p|]; }
    forall k | 1 <= k < |r| ensures PieceWithin(host, r[k], t, 1) {
      assert t[1..] == s;
      PieceShift(host, pieces[k], t, s, 1);
    }
  }

  lemma SplitFromSkip(host: Host, pieces: seq<string>, s: string, k: nat)
    requires 0 < k <= |s| && !IsWord(host, s[0]) && !IsWord(host, s[k - 1]) && SplitFrom(host, pieces, s[k..])
    ensures SplitFrom(host, [""] + pieces, s)
  {
    var r := [""] + pieces;
    assert s[0..0] == "";
    forall j | 1 <= j < |r| ensures PieceWithin(host, r[j], s, 1) {
      if j == 1 {
        PieceOfSuffix(host, pieces[0], s, k);
      } else {
        PieceShift(host, pieces[j - 1], s, s[k..], 1);
      }
    }
  }

  lemma {:induction false} SplitOnPieces(host: Host, s: string, sep: char)
    requires IsSeparator(host, sep)
    ensures SplitFrom(host, SplitOn(s, sep), s)
  {
    if s == "" {
      assert s[0..0] == "";
    } else {
      SplitOnPieces(host, s[1..], sep);
      if s[0] == sep {
        SplitFromSkip(host, SplitOn(s[1..], sep), s, 1);
      } else {
        SplitFromCons(host, s[0], SplitOn(s[1..], sep), s[1..]);
        assert [s[0]] + s[1..] == s;
      }
    }
  }

  lemma AndHereSuffix(s: string) returns (k: nat)
    requires AndHere(s).Some?
    ensures 0 < k <= |s| && IsSpace(s[0]) && IsSpace(s[k - 1]) && AndHere(s) == Some(s[k..])
  {
    var n := SpaceRun(s);
    var rest := s[n + 3..];
    SpaceRunIsMaximal(rest);
    k := n + 3 + SpaceRun(rest);
    assert s[k..] == rest[SpaceRun(rest)..];
    assert s[k - 1] == rest[SpaceRun(rest) - 1];
  }

  lemma {:induction false} SplitAndPieces(host: Host, s: string)
    requires HostAgrees(host)
    ensures SplitFrom(host, SplitAnd(s), s)
    decreases |s|
  {
    if s == "" {
      assert s[0..0] == "";
    } else if AndHere(s).Some? {
      var k := AndHereSuffix(s);
      SeparatorChars(host, s[0]);
      SeparatorChars(host, s[k - 1]);
      SplitAndPieces(host, s[k..]);
      SplitFromSkip(host, SplitAnd(s[k..]), s, k);
    } else {
      SplitAndPieces(host, s[1..]);
      SplitFromCons(host, s[0], SplitAnd(s[1..]), s[1..]);
      assert [s[0]] + s[1..] == s;
    }
  }

  lemma CleanPieces(host: Host, pieces: seq<string>, s: string)
    requires Clean(host, s) && SplitFrom(host, pieces, s)
    ensures forall p :: p in pieces ==> Clean(host, p)
  {
    forall k | 0 <= k < |pieces| ensures Clean(host, pieces[k]) {
      var i: nat :| IsolatedAt(host, pieces[k], s, i);
      CleanPiece(host, pieces[k], s, i);
    }
  }

  /** Where the order text starts, if there is one. */
  lemma OrderHereSuffix(s: string) returns (k: nat)
    requires OrderHere(s).Some?
    ensures 0 < k <= |s| && IsSpace(s[0]) && IsSpace(s[k - 1]) && OrderHere(s) == Some(s[k..])
  {
    var n := SpaceRun(s);
    var r1 := s[n + 5..];
    var m := SpaceRun(r1);
    var r2 := r1[m + 2..];
    SpaceRunIsMaximal(r2);
    k := n + 5 + m + 2 + SpaceRun(r2);
    assert s[k..] == r2[SpaceRun(r2)..];
    assert s[k - 1] == r2[SpaceRun(r2) - 1];
  }

  lemma {:induction false} FindOrderPieces(host: Host, s: string)
    requires HostAgrees(host) && FindOrder(s).Some?
    ensures SplitFrom(host, [FindOrder(s).value.0, FindOrder(s).value.1], s)
  {
    if OrderHere(s).Some? {
      var k := OrderHereSuffix(s);
      SeparatorChars(host, s[0]);
      SeparatorChars(host, s[k - 1]);
      assert s[k..][0..|s[k..]|] == s[k..];
      assert SplitFrom(host, [s[k..]], s[k..]);
      SplitFromSkip(host, [s[k..]], s, k);
      assert [""] + [s[k..]] == ["", s[k..]];
    } else {
      FindOrderPieces(host, s[1..]);
      var (body, text) := FindOrder(s[1..]).value;
      SplitFromCons(host, s[0], [body, text], s[1..]);
      assert [s[0]] + s[1..] == s;
      assert [[s[0]] + body] + [body, text][1..] == [[s[0]] + body, text];
    }
  }

  // ---- putting together

  /** A keyword in joined text lies on one side of the separator. */
  lemma JoinKeyword(host: Host, a: string, sep: char, b: string, i: nat, keyword: string)
    requires IsSeparator(host, sep) && keyword in FORBIDDEN_WORDS && i < |a| + 1 + |b|
    ensures KeywordAt(host, a + [sep] + b, i, keyword) ==>
              (i < |a| && KeywordAt(host, a, i, keyword)) || (i > |a| && KeywordAt(host, b, i - |a| - 1, keyword))
  {
    var t, k := a + [sep] + b, |keyword|;
    assert forall c :: c in keyword ==> IsLetter(c);
    if i + k <= |t| {
      if i <= |a| < i + k {
        assert Fold(t[i..][..k])[|a| - i] == FoldChar(sep);
        assert keyword[|a| - i] in keyword;
      } else if i < |a| {
        assert t[i..][..k] == a[i..][..k];
        if i > 0 { assert t[i - 1] == a[i - 1]; }
        if i + k < |a| { assert t[i + k] == a[i + k]; }
      } else {
        var j := i - |a| - 1;
        assert t[i..] == b[j..];
        if j > 0 { assert t[i - 1] == b[j - 1]; }
        if j + k < |b| { assert t[i + k] == b[j + k]; }
      }
    }
  }

  /** Joining acceptable texts around a separator is acceptable. */
  lemma CleanJoin(host: Host, a: string, sep: char, b: string)
    requires Clean(host, a) && Clean(host, b) && IsSeparator(host, sep)
    ensures Clean(host, a + [sep] + b)
  {
    var t := a + [sep] + b;
    forall i | 0 <= i < |t| ensures !ForbiddenAt(host, t, i) {
      if i < |a| {
        assert !ForbiddenAt(host, a, i) && t[i] == a[i];
        if i + 1 < |a| { assert t[i + 1] == a[i + 1]; } else { assert t[i + 1] == sep; }
      } else if i > |a| {
        var j := i - |a| - 1;
        assert !ForbiddenAt(host, b, j) && t[i] == b[j];
        if j + 1 < |b| { assert t[i + 1] == b[j + 1]; }
      }
      forall keyword | keyword in FORBIDDEN_WORDS && KeywordAt(host, t, i, keyword) ensures false {
        JoinKeyword(host, a, sep, b, i, keyword);
      }
    }
  }

  /** A text whose characters cannot begin anything forbidden. */
  predicate NoForbiddenStart(s: string) {
    NoDoubleDash(s) && forall c :: c in s ==> FoldChar(c) !in "ONDSU;/*"
  }

  lemma CleanWithoutStart(host: Host, s: string)
    requires NoForbiddenStart(s)
    ensures Clean(host, s)
  {
    forall i | 0 <= i < |s| ensures !ForbiddenAt(host, s, i) {
      assert s[i] in s;
      if i + 1 < |s| { assert s[i + 1] in s; }
      forall keyword | keyword in FORBIDDEN_WORDS ensures !KeywordAt(host, s, i, keyword) {
        assert keyword[0] in "ONDSU";
        if i + |keyword| <= |s| { assert Fold(s[i..][..|keyword|])[0] == FoldChar(s[i]); }
      }
    }
  }

  /** A single word is acceptable unless it is a forbidden keyword. */
  lemma CleanWord(host: Host, w: string)
    requires (forall c :: c in w ==> IsWord(host, c) && c as int < 128) && Fold(w) !in FORBIDDEN_WORDS
    ensures Clean(host, w)
  {
    forall i | 0 <= i < |w| ensures !ForbiddenAt(host, w, i) {
      assert w[i] in w;
      forall keyword | keyword in FORBIDDEN_WORDS ensures !KeywordAt(host, w, i, keyword) {
        var k := |keyword|;
        if i > 0 { assert w[i - 1] in w; }
        if i + k < |w| { assert w[i + k] in w; }
        if i == 0 && k == |w| { assert w[i..][..k] == w; }
      }
    }
  }
}
