/** Queries without ORDER BY: all their clauses are read, in order, and the default order is used. */
module JqlDefault {
  import opened Basics
  import opened Text
  import opened JqlSyntax
  import opened JqlWords
  import opened JqlClean
  import opened JqlGood
  import opened JqlParens
  import opened JqlRoundTrip

  // ---- clauses printed without an order

  /** What reading clauses printed without an order leaves to the clause parser. */
  lemma BodyReads(host: Host, cs: seq<Clause>)
    requires HostAgrees(host) && cs != [] && AllGood(host, cs) && |Body(host, cs)| <= MAX_LENGTH
    ensures Parse(host, Body(host, cs))
            == ParseParts(host, Body(host, cs), Trimmed(SplitAnd(Body(host, cs))),
              [("priority_score", "DESC"), ("opened_at", "ASC")])
  {
    var ws := BodyWords(host, cs);
    BodyShape(host, cs);
    BodySpaced(host, cs);
    BodyWordsClean(host, cs);
    WordsClean(host, ws);
    SpacedStripped(ws);
    SpacedHead(ws);
    NoOrderInBody(ws);
    NoStrayParen(host, cs);
  }

  lemma NoOrderInBody(ws: seq<string>)
    requires AllPlain(ws) && ws != [] && OrderThenAnd(ws)
    ensures FindOrder(Spaced(ws)) == None
  {
    KeywordsFold();
    forall k | 1 <= k < |ws| ensures !OrderAt(ws, k) { }
    FindOrderNone(ws);
  }

  /** Clauses joined by AND and followed by no ORDER BY are read back all of them and in their order, under the default
      order, if and only if they are at most eight, no clause but the last compares with the word AND, and the text is
      not too long. */
  lemma BodyParsesBack(host: Host, cs: seq<Clause>)
    requires HostAgrees(host) && cs != [] && AllGood(host, cs)
    ensures var text := Join(ClauseTexts(host, cs), " AND ");
            if |text| <= 512 && |cs| <= 8 && !InnerAnd(host, cs) then
              Parse(host, text) == Ok(Query(text, cs, [("priority_score", "DESC"), ("opened_at", "ASC")]))
            else Parse(host, text).Err?
    ensures |Join(ClauseTexts(host, cs), " AND ")| <= 512 && |cs| > 8 && !InnerAnd(host, cs) ==>
              Parse(host, Join(ClauseTexts(host, cs), " AND ")) == Err(ClauseLimit)
  {
    var text := Body(host, cs);
    BodySpaced(host, cs);
    if |text| > MAX_LENGTH {
      BodyShape(host, cs);
      SpacedStripped(BodyWords(host, cs));
    } else {
      BodyReads(host, cs);
      if InnerAnd(host, cs) {
        var piece := InnerAndCuts(host, cs);
        TrimmedKeeps(SplitAnd(text), piece);
        OneBadPart(host, Trimmed(SplitAnd(text)), piece);
      } else {
        SplitsIntoClauses(host, cs);
        ClausesParseBack(host, cs);
      }
    }
  }
}
