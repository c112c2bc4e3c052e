/** The quote-aware tokenizer of the search language. */
module SearchTokens {
  import opened Texts

  datatype Scanner = Scanner(tokens: seq<string>, current: string, inQuotes: bool)

  const START := Scanner([], "", false)

  function Step(st: Scanner, c: char): Scanner {
    if c == '\"' then st.(inQuotes := !st.inQuotes)
    else if IsSpace(c) && !st.inQuotes then
      if st.current == "" then st else Scanner(st.tokens + [st.current], "", false)
    else st.(current := st.current + [c])
  }

  function Run(st: Scanner, s: string): Scanner {
    if s == "" then st else Step(Run(st, s[..|s| - 1]), s[|s| - 1])
  }

  function Flush(st: Scanner): seq<string> {
    if st.current == "" then st.tokens else st.tokens + [st.current]
  }

  function Tokens(query: string): seq<string> { Flush(Run(START, query)) }

  method Tokenize(query: string) returns (tokens: seq<string>)
    ensures tokens == Tokens(query)
  {
    tokens := [];
    var current, inQuotes := "", false;
    for i := 0 to |query|
      invariant Scanner(tokens, current, inQuotes) == Run(START, query[..i])
    {
      assert query[..i + 1][..i] == query[..i];
      var c := query[i];
      if c == '\"' {
        inQuotes := !inQuotes;
      } else if IsSpace(c) && !inQuotes {
        if current != "" {
          tokens := tokens + [current];
          current := "";
        }
      } else {
        current := current + [c];
      }
    }
    assert query[..|query|] == query;
    if current != "" { tokens := tokens + [current]; }
  }

  // ---------- What the tokens are ----------

  predicate Quoted(query: string, i: nat)
    requires i <= |query|
  {
    if i == 0 then false else if query[i - 1] == '\"' then !Quoted(query, i - 1) else Quoted(query, i - 1)
  }

  function QuoteCount(query: string): nat {
    if query == "" then 0 else QuoteCount(query[..|query| - 1]) + if query[|query| - 1] == '\"' then 1 else 0
  }

  lemma {:induction false} QuotedIsParity(query: string, n: nat)
    requires n <= |query|
    ensures Quoted(query, n) <==> QuoteCount(query[..n]) % 2 == 1
  {
    if n > 0 {
      QuotedIsParity(query, n - 1);
      assert query[..n][..n - 1] == query[..n - 1];
    }
  }

  function Concat(tokens: seq<string>): string {
    if tokens == [] then "" else Concat(tokens[..|tokens| - 1]) + tokens[|tokens| - 1]
  }

  /** The query without its quotes and without the whitespace outside them. */
  function Spelled(query: string, n: nat): string
    requires n <= |query|
  {
    if n == 0 then ""
    else
      var c := query[n - 1];
      if c == '\"' || (IsSpace(c) && !Quoted(query, n - 1)) then Spelled(query, n - 1) else Spelled(query, n - 1) + [c]
  }

  /** Nothing a scanner holds is empty or quoted. */
  predicate Clean(st: Scanner) {
    (forall i :: 0 <= i < |st.tokens| ==> st.tokens[i] != "" && '\"' !in st.tokens[i]) && '\"' !in st.current
  }

  lemma ConcatPush(tokens: seq<string>, token: string)
    ensures Concat(tokens + [token]) == Concat(tokens) + token
  {}

  lemma StepSpells(st: Scanner, c: char)
    requires Clean(st)
    ensures var r := Step(st, c);
            && Clean(r) && (r.inQuotes <==> (if c == '\"' then !st.inQuotes else st.inQuotes))
            && Concat(r.tokens) + r.current
               == Concat(st.tokens) + st.current + if c == '\"' || (IsSpace(c) && !st.inQuotes) then "" else [c]
  {
    hide Concat, IsSpace;
    ConcatPush(st.tokens, st.current);
  }

  lemma StartIsClean()
    ensures Clean(START)
  {
  }

  lemma {:induction false} RunIsSpelled(query: string, n: nat)
    requires n <= |query|
    ensures var st := Run(START, query[..n]);
            && (st.inQuotes <==> Quoted(query, n))
            && Concat(st.tokens) + st.current == Spelled(query, n)
            && Clean(st)
  {
    hide Step, IsSpace, Clean;
    StartIsClean();
    if n > 0 {
      RunIsSpelled(query, n - 1);
      assert query[..n][..n - 1] == query[..n - 1];
      StepSpells(Run(START, query[..n - 1]), query[n - 1]);
    }
  }

  /** The scanner ends inside quotes exactly when the number of quotes is odd. */
  lemma EndsQuotedIff(query: string)
    ensures Run(START, query).inQuotes <==> QuoteCount(query) % 2 == 1
  {
    RunIsSpelled(query, |query|);
    QuotedIsParity(query, |query|);
    assert query[..|query|] == query;
  }

  /** Tokens are never empty, never hold a quote, and together spell exactly what the query writes. */
  lemma TokensSpellTheQuery(query: string)
    ensures Concat(Tokens(query)) == Spelled(query, |query|)
    ensures forall t :: t in Tokens(query) ==> t != "" && '\"' !in t
  {
    hide Run, Spelled, Concat;
    RunIsSpelled(query, |query|);
    assert query[..|query|] == query;
    var st := Run(START, query);
    ConcatPush(st.tokens, st.current);
  }

  /** There is no token exactly when the query writes nothing. */
  lemma NoTokensIff(query: string)
    ensures Tokens(query) == [] <==> Spelled(query, |query|) == ""
  {
    TokensSpellTheQuery(query);
    var tokens := Tokens(query);
    if tokens != [] { assert tokens[|tokens| - 1] in tokens; }
  }

  /** A query that writes nothing is made of quotes and whitespace. */
  lemma {:induction false} SpellsNothing(query: string, n: nat, i: nat)
    requires i < n <= |query| && Spelled(query, n) == ""
    ensures query[i] == '\"' || IsSpace(query[i])
  {
    if i < n - 1 { SpellsNothing(query, n - 1, i); }
  }

  // ---------- Scanning a concatenation ----------

  lemma {:induction false} RunConcat(st: Scanner, a: string, b: string)
    ensures Run(st, a + b) == Run(Run(st, a), b)
    decreases |b|
  {
    if b == "" {
      assert a + b == a;
    } else {
      RunConcat(st, a, b[..|b| - 1]);
      assert (a + b)[..|a + b| - 1] == a + b[..|b| - 1];
    }
  }

  /** Characters that are neither quotes nor splitting whitespace pile up in the current token. */
  lemma {:induction false} RunPlain(st: Scanner, s: string)
    requires forall i :: 0 <= i < |s| ==> s[i] != '\"' && (st.inQuotes || !IsSpace(s[i]))
    ensures Run(st, s) == st.(current := st.current + s)
    decreases |s|
  {
    if s != "" {
      RunPlain(st, s[..|s| - 1]);
      assert s == s[..|s| - 1] + [s[|s| - 1]];
    }
  }

  predicate Plain(s: string) { forall i :: 0 <= i < |s| ==> s[i] != '\"' && !IsSpace(s[i]) }

  lemma PlainScans(st: Scanner, s: string)
    requires Plain(s)
    ensures Run(st, s) == st.(current := st.current + s)
  {
    RunPlain(st, s);
  }

  predicate Lowercase(s: string) { s != "" && forall i :: 0 <= i < |s| ==> 'a' <= s[i] <= 'z' }

  lemma RunChar(st: Scanner, c: char)
    ensures Run(st, [c]) == Step(st, c)
  {}

  /** A quoted value after a field name scans to one token, whatever whitespace the value holds. */
  lemma ValueScans(st: Scanner, field: string, value: string)
    requires Lowercase(field) && '\"' !in value && !st.inQuotes && st.current == ""
    ensures Run(st, field + ":\"" + value + "\"") == st.(current := field + ":" + value)
  {
    hide Run;
    var head := field + ":";
    assert Plain(head);
    var opening, inside := st.(current := head), st.(current := head, inQuotes := true);
    PlainScans(st, head);
    RunChar(opening, '\"');
    RunConcat(st, head, "\"");
    RunPlain(inside, value);
    RunConcat(st, head + "\"", value);
    RunChar(inside.(current := head + value), '\"');
    RunConcat(st, head + "\"" + value, "\"");
    assert field + ":\"" + value + "\"" == head + "\"" + value + "\"" && field + ":" + value == head + value;
    assert "" + head == head;
  }

  lemma StepGrows(st: Scanner, before: Scanner, c: char)
    requires var r := Flush(before); |r| > |st.tokens| && r[..|st.tokens|] == st.tokens && st.current <= r[|st.tokens|]
    ensures var r := Flush(Step(before, c));
            |r| > |st.tokens| && r[..|st.tokens|] == st.tokens && st.current <= r[|st.tokens|]
  {
    var n, r, r' := |st.tokens|, Flush(before), Flush(Step(before, c));
    if before.current != "" && |r| == n + 1 {
      assert before.current <= r'[n] && r[n] == before.current;
      assert r'[..n] == before.tokens[..n] == r[..n];
    } else {
      assert |r'| >= |r| - 1 && r'[..n] == r[..n] && r'[n] == r[n];
    }
  }

  /** A token under construction only grows, and finished tokens stay. */
  lemma {:induction false} CurrentGrows(st: Scanner, s: string)
    requires st.current != ""
    ensures var r := Flush(Run(st, s));
            |r| > |st.tokens| && r[..|st.tokens|] == st.tokens && st.current <= r[|st.tokens|]
    decreases |s|
  {
    if s != "" {
      CurrentGrows(st, s[..|s| - 1]);
      var before := Run(st, s[..|s| - 1]);
      StepGrows(st, before, s[|s| - 1]);
    }
  }
}
