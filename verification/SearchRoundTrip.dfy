/** Composing a structured request and parsing it back. */
module SearchRoundTrip {
  import opened Options
  import opened Texts
  import opened SearchTokens
  import opened SearchQueries

  const FIELDS := ["type", "instrument", "key", "tag"]

  predicate WellFormed(c: Clause) { c.Value? ==> c.field in FIELDS }

  predicate ClausePrints(u: Locale, c: Clause) { c.Bpm? ==> Prints(u, c.min) && Prints(u, c.max) }

  predicate AllPrint(u: Locale, clauses: seq<Clause>) { forall i :: 0 <= i < |clauses| ==> ClausePrints(u, clauses[i]) }

  predicate AllWellFormed(clauses: seq<Clause>) {
    forall i :: 0 <= i < |clauses| ==> WellFormed(clauses[i]) && QuoteFree(clauses[i])
  }

  lemma FieldsAreLowercase(field: string)
    requires field in FIELDS || field == "bpm"
    ensures Lowercase(field)
  {
  }

  // ---------- Tokens come back ----------

  lemma ShownIsPlain(u: Locale, x: Option<real>)
    requires Prints(u, x)
    ensures Plain(Show(u, x))
  {
  }

  lemma PlainConcat(a: string, b: string)
    requires Plain(a) && Plain(b)
    ensures Plain(a + b)
  {
  }

  lemma LiteralsArePlain()
    ensures Plain("-") && Plain("bpm:")
  {
  }

  lemma BpmIsPlain(u: Locale, min: Option<real>, max: Option<real>)
    requires Prints(u, min) && Prints(u, max)
    ensures Plain(Show(u, min) + "-" + Show(u, max)) && Plain("bpm:" + Show(u, min) + "-" + Show(u, max))
  {
    hide Show, Plain, Prints;
    ShownIsPlain(u, min);
    ShownIsPlain(u, max);
    LiteralsArePlain();
    PlainConcat(Show(u, min), "-");
    PlainConcat(Show(u, min) + "-", Show(u, max));
    PlainConcat("bpm:", Show(u, min) + "-" + Show(u, max));
    assert "bpm:" + Show(u, min) + "-" + Show(u, max) == "bpm:" + (Show(u, min) + "-" + Show(u, max));
  }

  /** From between tokens, a written clause scans to its token. */
  lemma WrittenScans(u: Locale, st: Scanner, c: Clause)
    requires ClausePrints(u, c) && WellFormed(c) && QuoteFree(c) && !st.inQuotes && st.current == ""
    ensures Run(st, Written(u, c)) == st.(current := Token(u, c))
  {
    hide Run, Prints, Plain, Show;
    match c
    case Value(field, value) =>
      FieldsAreLowercase(field);
      ValueScans(st, field, value);
    case Bpm(min, max) =>
      BpmIsPlain(u, min, max);
      PlainScans(st, Written(u, c));
  }

  lemma TokenNotEmpty(u: Locale, c: Clause)
    requires WellFormed(c)
    ensures Token(u, c) != "" && 'a' <= Token(u, c)[0] <= 'z'
  {}

  lemma OneMoreClause(u: Locale, terms: seq<string>, c: Clause)
    requires ClausePrints(u, c) && WellFormed(c) && QuoteFree(c) && !Run(START, Join(terms)).inQuotes
    ensures var st := Run(START, Join(terms + [Written(u, c)]));
            !st.inQuotes && Flush(st) == Tokens(Join(terms)) + [Token(u, c)]
  {
    var w := Written(u, c);
    JoinPush(terms, w);
    TokenNotEmpty(u, c);
    if terms == [] {
      WrittenScans(u, START, c);
    } else {
      var st := Run(START, Join(terms));
      var next := Step(st, ' ');
      RunChar(st, ' ');
      RunConcat(START, Join(terms), " ");
      WrittenScans(u, next, c);
      RunConcat(START, Join(terms) + " ", w);
    }
  }

  /** After a text that ends outside quotes, each written clause scans to its token. */
  lemma {:induction false} ClausesScan(u: Locale, base: seq<string>, clauses: seq<Clause>)
    requires AllPrint(u, clauses) && AllWellFormed(clauses) && !Run(START, Join(base)).inQuotes
    ensures var st := Run(START, Join(base + AllWritten(u, clauses)));
            !st.inQuotes && Flush(st) == Tokens(Join(base)) + AllTokens(u, clauses)
    decreases |clauses|
  {
    hide Written, Token, Step, ClausePrints, Run, Flush, Join, QuoteFree, WellFormed;
    if clauses == [] {
      assert base + AllWritten(u, clauses) == base && AllTokens(u, clauses) == [];
      assert Tokens(Join(base)) + AllTokens(u, clauses) == Tokens(Join(base));
    } else {
      var n := |clauses| - 1;
      var terms := base + AllWritten(u, clauses[..n]);
      ClausesScan(u, base, clauses[..n]);
      assert base + AllWritten(u, clauses) == terms + [Written(u, clauses[n])];
      assert AllTokens(u, clauses) == AllTokens(u, clauses[..n]) + [Token(u, clauses[n])];
      OneMoreClause(u, terms, clauses[n]);
    }
  }

  lemma {:induction false} AfterFirst(first: string, terms: seq<string>) returns (rest: string)
    requires terms != []
    ensures Join([first] + terms) == first + " " + rest
    decreases |terms|
  {
    hide Join;
    var n := |terms| - 1;
    JoinPush([first] + terms[..n], terms[n]);
    assert [first] + terms == ([first] + terms[..n]) + [terms[n]];
    if n == 0 {
      JoinOne(first);
      assert [first] + terms[..n] == [first];
      rest := terms[0];
    } else {
      var before := AfterFirst(first, terms[..n]);
      rest := before + " " + terms[n];
      assert first + " " + rest == (first + " " + before) + " " + terms[n];
    }
  }

  /** With an open quote the first clause is swallowed by the token the quote is in. */
  lemma OpenQuoteSwallows(u: Locale, query: string, clauses: seq<Clause>)
    requires AllWellFormed(clauses) && clauses != [] && Run(START, query).inQuotes
    ensures Tokens(Join([query] + AllWritten(u, clauses))) != Tokens(query) + AllTokens(u, clauses)
  {
    hide Written, Token;
    var st := Run(START, query);
    var rest := AfterFirst(query, AllWritten(u, clauses));
    RunConcat(START, query, " ");
    RunChar(st, ' ');
    RunConcat(START, query + " ", rest);
    CurrentGrows(st.(current := st.current + " "), rest);
    var actual := Tokens(Join([query] + AllWritten(u, clauses)));
    assert st.current + " " <= actual[|st.tokens|];
    TokenNotEmpty(u, clauses[0]);
    assert AllTokens(u, clauses)[0] == Token(u, clauses[0]);
    var expected := Tokens(query) + AllTokens(u, clauses);
    assert expected[|st.tokens|] == if st.current == "" then Token(u, clauses[0]) else st.current;
    if st.current == "" { assert actual[|st.tokens|][0] == ' '; }
  }

  lemma ClausesAreWellFormed(u: Locale, r: Request)
    ensures forall i :: 0 <= i < |Clauses(r)| ==> WellFormed(Clauses(r)[i])
    ensures BoundsPrint(u, r) ==> AllPrint(u, Clauses(r))
  {
    hide Prints;
  }

  function QueryText(r: Request): string { Join(FreeQuery(r)) }

  lemma NoQuotesInNothing()
    ensures QuoteCount("") == 0
  {
  }

  lemma NoClauseNoText(u: Locale, base: seq<string>)
    ensures base + AllWritten(u, []) == base && forall s: seq<string> :: s + AllTokens(u, []) == s
  {
  }

  /**
   A request whose structured values hold no quote composes, and tokenizing the result gives the tokens of the
   free query followed by one token per clause exactly when the free query has an even number of quotes or there
   is no clause.
   */
  lemma TokensRoundTripIff(u: Locale, r: Request)
    requires BoundsPrint(u, r)
    ensures Composed(u, r).Some? <==> AllQuoteFree(Clauses(r))
    ensures Composed(u, r).Some? ==>
              (Tokens(Composed(u, r).value) == Tokens(QueryText(r)) + AllTokens(u, Clauses(r)) <==>
               QuoteCount(QueryText(r)) % 2 == 0 || Clauses(r) == [])
  {
    hide Clauses, AllWritten, AllTokens, Run, Trim, QuoteCount, BoundsPrint, AllPrint;
    if Composed(u, r).Some? {
      var base, clauses := FreeQuery(r), Clauses(r);
      ClausesAreWellFormed(u, r);
      EndsQuotedIff(QueryText(r));
      if QuoteCount(QueryText(r)) % 2 == 0 {
        ClausesScan(u, base, clauses);
      } else if clauses != [] {
        NoQuotesInNothing();
        assert base != [];
        assert base == [QueryText(r)];
        OpenQuoteSwallows(u, QueryText(r), clauses);
      } else {
        NoClauseNoText(u, base);
      }
    }
  }

  // ---------- An odd number of quotes ----------

  function TypeRequest(query: string, sampleType: string): Request {
    Request(Some(query), Some(sampleType), None, None, [], None, None)
  }

  lemma TypeRequestIs(u: Locale, query: string, sampleType: string)
    requires query != "" && !IsSpace(query[0]) && !IsSpace(query[|query| - 1]) && '\"' !in sampleType
    ensures var r, c := TypeRequest(query, sampleType), Value("type", sampleType);
            && FreeQuery(r) == [query] && QueryText(r) == query && Clauses(r) == [c] && AllQuoteFree(Clauses(r))
            && Composed(u, r) == Some(query + " " + Written(u, c)) && AllTokens(u, Clauses(r)) == [Token(u, c)]
  {
    hide Trim, Written, Token, Join;
    var r, c := TypeRequest(query, sampleType), Value("type", sampleType);
    TrimVisible(query);
    assert TagClauses([]) == [] && Clauses(r) == [c];
    assert AllWritten(u, [c]) == [Written(u, c)] && AllTokens(u, [c]) == [Token(u, c)];
    JoinOne(query);
    JoinPush([query], Written(u, c));
  }

  /** A stray quote makes the next written value part of its own token. */
  lemma StrayQuoteScans()
    ensures Tokens("a\"") == ["a"] && Tokens("a\"" + " " + "type:\"loop\"") == ["a type:loop"]
  {
    hide Run;
    var query := "a\"";
    var inside, outside := Scanner([], "a", true), Scanner([], "a type:", false);
    PlainScans(START, "a");
    assert "" + "a" == "a";
    RunChar(START.(current := "a"), '\"');
    RunConcat(START, "a", "\"");
    assert "a" + "\"" == query && query + " type:" + "\"" == query + " type:\"" &&
           query + " type:\"" + "loop" == query + " type:\"loop";
    assert Run(START, query) == inside;
    assert "a" + " type:" == "a type:" && "a type:" + "loop" == "a type:loop";
    RunPlain(inside, " type:");
    RunConcat(START, query, " type:");
    RunChar(inside.(current := "a type:"), '\"');
    RunConcat(START, query + " type:", "\"");
    PlainScans(outside, "loop");
    RunConcat(START, query + " type:\"", "loop");
    RunChar(outside.(current := "a type:loop"), '\"');
    RunConcat(START, query + " type:\"loop", "\"");
    assert query + " type:\"loop" + "\"" == query + " " + "type:\"loop\"";
  }

  /** With a stray quote in the query the type clause is not a token of its own: it ends the token the quote began. */
  lemma StrayQuoteLosesTheClause(u: Locale)
    ensures var r := TypeRequest("a\"", "loop");
            && Composed(u, r).Some? && Tokens(Composed(u, r).value) == ["a type:loop"]
            && Tokens(QueryText(r)) + AllTokens(u, Clauses(r)) == ["a", "type:loop"]
  {
    hide Tokens, Composed, QueryText, AllTokens, Clauses;
    TypeRequestIs(u, "a\"", "loop");
    StrayQuoteScans();
    assert "type" + ":\"" + "loop" + "\"" == "type:\"loop\"" && "type" + ":" + "loop" == "type:loop";
    assert ["a"] + ["type:loop"] == ["a", "type:loop"];
  }
}
