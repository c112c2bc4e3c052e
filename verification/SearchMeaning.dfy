/** What a composed request means once it has been parsed back. */
module SearchMeaning {
  import opened Options
  import opened Texts
  import opened SearchTokens
  import opened SearchQueries
  import opened SearchRoundTrip

  // ---------- Text facts ----------

  lemma {:induction false} SplitAtFirst(a: string, c: char, b: string)
    requires c !in a
    ensures SplitOnce(a + [c] + b, c) == Some((a, b))
  {
    if a == "" {
      assert "" + [c] + b == [c] + b && ([c] + b)[1..] == b;
    } else {
      SplitAtFirst(a[1..], c, b);
      assert (a + [c] + b)[1..] == a[1..] + [c] + b;
      assert [a[0]] + a[1..] == a;
    }
  }

  lemma TrimPlain(s: string)
    requires Plain(s)
    ensures Trim(s) == s
  {
  }

  lemma LowercaseFolds(u: Locale, c: char)
    requires Lawful(u) && 'a' <= c <= 'z'
    ensures FoldChar(u, c) == [c]
  {}

  lemma {:induction false} FoldLowercase(u: Locale, s: string)
    requires Lawful(u) && forall i :: 0 <= i < |s| ==> 'a' <= s[i] <= 'z'
    ensures FoldAll(u, s) == s
    decreases |s|
  {
    hide Lawful, FoldChar;
    if s != "" {
      FoldLowercase(u, s[..|s| - 1]);
      LowercaseFolds(u, s[|s| - 1]);
    }
  }

  lemma {:induction false} FoldKeepsHead(u: Locale, s: string)
    requires Lawful(u) && s != "" && 'a' <= s[0] <= 'z'
    ensures FoldAll(u, s) != "" && FoldAll(u, s)[0] == s[0]
    decreases |s|
  {
    hide Lawful, FoldChar;
    if |s| == 1 {
      assert s[..0] == "";
      LowercaseFolds(u, s[0]);
    } else {
      FoldKeepsHead(u, s[..|s| - 1]);
    }
  }

  lemma NormalKeepsHead(u: Locale, s: string)
    requires Lawful(u) && s != "" && 'a' <= s[0] <= 'z'
    ensures NormalizeValue(u, s) != "" && NormalizeValue(u, s)[0] == s[0]
  {
    hide Lawful, FoldAll, Trim;
    FoldKeepsHead(u, s);
    TrimKeeps(FoldAll(u, s), 0);
  }

  lemma {:induction false} WithoutKeepsHead(s: string, removed: string)
    requires s != "" && s[0] !in removed
    ensures Without(s, removed) != "" && Without(s, removed)[0] == s[0]
    decreases |s|
  {
    if |s| > 1 { WithoutKeepsHead(s[..|s| - 1], removed); }
  }

  lemma {:induction false} WithoutLowercase(s: string)
    requires forall i :: 0 <= i < |s| ==> 'a' <= s[i] <= 'z'
    ensures Without(s, "_-") == s
    decreases |s|
  {
    if s != "" { WithoutLowercase(s[..|s| - 1]); }
  }

  lemma FieldIsNormal(u: Locale, field: string)
    requires Lawful(u) && Lowercase(field)
    ensures NormalizeField(u, field) == field && ':' !in field
  {
    hide Lawful, FoldAll, Trim, Without;
    FoldLowercase(u, field);
    TrimPlain(field);
    WithoutLowercase(field);
  }

  // ---------- Ranges ----------

  lemma ShownReads(u: Locale, x: Option<real>)
    requires Prints(u, x)
    ensures ParseNumber(u, Show(u, x)) == x
    ensures (x.Some? && x.value < 0.0) <==> '-' in Show(u, x)
    ensures x.Some? && x.value < 0.0 ==> Show(u, x)[0] == '-'
  {
    if x.Some? { TrimPlain(Show(u, x)); }
  }

  lemma EmptyIsNoNumber(u: Locale)
    ensures ParseNumber(u, "") == None
  {
  }

  /** A tempo range survives the text form exactly when its lower bound, if any, is not negative. */
  lemma RangeReadsBackIff(u: Locale, min: Option<real>, max: Option<real>)
    requires Prints(u, min) && Prints(u, max) && (min.Some? || max.Some?)
    ensures ParseNumberRange(u, Show(u, min) + "-" + Show(u, max)) == Some(NumberRange(min, max)) <==>
            !(min.Some? && min.value < 0.0)
  {
    hide Show, ParseNumber, Prints;
    ShownReads(u, min);
    ShownReads(u, max);
    if min.Some? && min.value < 0.0 {
      var s := Show(u, min);
      SplitAtFirst("", '-', s[1..] + "-" + Show(u, max));
      assert "" + ['-'] + (s[1..] + "-" + Show(u, max)) == s + "-" + Show(u, max);
      EmptyIsNoNumber(u);
    } else {
      SplitAtFirst(Show(u, min), '-', Show(u, max));
    }
  }

  // ---------- One clause ----------

  /** What a clause does to what has been parsed: a blank value falls back to plain text. */
  function Overridden(u: Locale, p: Parsed, c: Clause): Parsed {
    match c
    case Bpm(min, max) => p.(bpm := Some(NumberRange(min, max)))
    case Value(field, value) =>
      var v := Trim(value);
      if v == "" then PushText(u, p, false, field + ":" + value)
      else if field == "type" then p.(playback := NormalizePlaybackType(u, v))
      else if field == "instrument" then p.(instrument := Some(NormalizeValue(u, v)))
      else if field == "key" then p.(key := NormalizeKey(u, v))
      else PushTag(u, p, false, v)
  }

  function AllOverridden(u: Locale, p: Parsed, clauses: seq<Clause>): Parsed {
    if clauses == [] then p else Overridden(u, AllOverridden(u, p, clauses[..|clauses| - 1]), clauses[|clauses| - 1])
  }

  predicate NonNegative(c: Clause) { c.Bpm? && c.min.Some? ==> c.min.value >= 0.0 }

  predicate Parsable(c: Clause) { WellFormed(c) && NonNegative(c) && (c.Bpm? ==> c.min.Some? || c.max.Some?) }

  lemma SplitToken(u: Locale, field: string, rest: string)
    requires Lawful(u) && Lowercase(field)
    ensures var token := field + ":" + rest;
            |token| > 0 && token[0] != '-' && SplitOnce(token, ':') == Some((field, rest)) &&
              NormalizeField(u, field) == field
  {
    FieldIsNormal(u, field);
    SplitAtFirst(field, ':', rest);
    assert field + [':'] + rest == field + ":" + rest;
  }

  lemma ValueParses(u: Locale, p: Parsed, c: Clause)
    requires Lawful(u) && c.Value? && WellFormed(c)
    ensures ParseToken(u, p, Token(u, c)) == Overridden(u, p, c)
  {
    hide SplitOnce, NormalizeField, Trim, PushText, PushTag, NormalizeValue, NormalizeKey, NormalizePlaybackType,
         Lawful;
    FieldsAreLowercase(c.field);
    SplitToken(u, c.field, c.value);
  }

  lemma BpmParses(u: Locale, p: Parsed, c: Clause)
    requires Lawful(u) && c.Bpm? && ClausePrints(u, c) && Parsable(c)
    ensures ParseToken(u, p, Token(u, c)) == Overridden(u, p, c)
  {
    hide SplitOnce, NormalizeField, Trim, PushText, PushTag, NormalizeValue, NormalizeKey, NormalizePlaybackType,
         Lawful, Show, ParseNumberRange, Plain, Prints;
    var range := Show(u, c.min) + "-" + Show(u, c.max);
    FieldsAreLowercase("bpm");
    SplitToken(u, "bpm", range);
    BpmIsPlain(u, c.min, c.max);
    TrimPlain(range);
    RangeReadsBackIff(u, c.min, c.max);
    assert "bpm" + ":" + range == "bpm:" + Show(u, c.min) + "-" + Show(u, c.max);
    assert range != "";
  }

  lemma {:induction false} ParseConcat(u: Locale, p: Parsed, a: seq<string>, b: seq<string>)
    ensures ParseTokens(u, p, a + b) == ParseTokens(u, ParseTokens(u, p, a), b)
    decreases |b|
  {
    hide ParseToken;
    if b == [] {
      assert a + b == a;
    } else {
      ParseConcat(u, p, a, b[..|b| - 1]);
      assert (a + b)[..|a + b| - 1] == a + b[..|b| - 1];
    }
  }

  lemma {:induction false} ClausesParse(u: Locale, p: Parsed, clauses: seq<Clause>)
    requires Lawful(u) && AllPrint(u, clauses) && forall i :: 0 <= i < |clauses| ==> Parsable(clauses[i])
    ensures ParseTokens(u, p, AllTokens(u, clauses)) == AllOverridden(u, p, clauses)
    decreases |clauses|
  {
    hide ParseToken, Overridden, Token, Lawful, ClausePrints;
    if clauses != [] {
      var n := |clauses| - 1;
      ClausesParse(u, p, clauses[..n]);
      assert AllTokens(u, clauses)[..n] == AllTokens(u, clauses[..n]);
      var before := ParseTokens(u, p, AllTokens(u, clauses[..n]));
      if clauses[n].Value? { ValueParses(u, before, clauses[n]); } else { BpmParses(u, before, clauses[n]); }
    }
  }

  // ---------- What the clauses of a query mean ----------

  lemma {:induction false} NoSplit(s: string, c: char)
    requires c !in s
    ensures SplitOnce(s, c) == None
    decreases |s|
  {
    if s != "" { NoSplit(s[1..], c); }
  }

  /** A word narrows the search to samples it matches, and with a minus sign to those it does not match. */
  lemma WordNarrows(u: Locale, p: Parsed, word: string, sample: Sample)
    requires word != "" && word[0] != '-' && ':' !in word && NormalizeValue(u, word) != ""
    ensures var found := u.fuzzy(NormalizeValue(u, word), [sample.fileName, Join(sample.tags)]);
            && (Matches(u, ParseToken(u, p, word), sample) <==> Matches(u, p, sample) && found)
            && (Matches(u, ParseToken(u, p, "-" + word), sample) <==> Matches(u, p, sample) && !found)
  {
    hide NormalizeValue, Join, HasTag, PlaybackMatches, InstrumentMatches, KeyMatches, InRange;
    NoSplit(word, ':');
    assert ("-" + word)[1..] == word;
  }

  lemma HasTagIff(u: Locale, sample: Sample, wanted: string)
    ensures HasTag(u, sample, wanted) <==> exists tag :: tag in sample.tags && NormalizeValue(u, tag) == wanted
  {
    hide NormalizeValue;
  }

  /** A tag clause narrows the search to samples with the tag, and with a minus sign to those without it. */
  lemma TagNarrows(u: Locale, p: Parsed, value: string, sample: Sample)
    requires Lawful(u) && Trim(value) != "" && NormalizeValue(u, Trim(value)) != ""
    ensures var tagged := exists tag :: tag in sample.tags && NormalizeValue(u, tag) == NormalizeValue(u, Trim(value));
            && (Matches(u, ParseToken(u, p, "tag:" + value), sample) <==> Matches(u, p, sample) && tagged)
            && (Matches(u, ParseToken(u, p, "-tag:" + value), sample) <==> Matches(u, p, sample) && !tagged)
  {
    hide NormalizeValue, NormalizeField, Join, HasTag, PlaybackMatches, InstrumentMatches, KeyMatches, InRange, Trim,
         SplitOnce, Lawful;
    SplitToken(u, "tag", value);
    assert "tag" + ":" + value == "tag:" + value;
    assert ("-tag:" + value)[1..] == "tag:" + value;
    HasTagIff(u, sample, NormalizeValue(u, Trim(value)));
  }

  lemma RootFolds(u: Locale, root: char)
    requires Lawful(u) && 'A' <= root <= 'G'
    ensures FoldAll(u, [root]) == [(root as int + 32) as char]
    ensures FoldAll(u, [root] + "#") == [(root as int + 32) as char] + "#"
  {
    assert [root][..0] == "" && FoldAll(u, "") == "";
    assert ([root] + "#")[..1] == [root];
  }

  lemma KeyFolds(u: Locale, key: string)
    requires Lawful(u) && key in KEYS
    ensures NormalizeKey(u, key) == Some(key)
  {
    hide Trim, FoldAll, Lawful;
    var root := key[0];
    var lower := (root as int + 32) as char;
    assert 'A' <= root <= 'G' && (key == [root] || key == [root] + "#");
    RootFolds(u, root);
    TrimPlain([lower]);
    TrimPlain([lower] + "#");
  }

  /** Canonical key names normalise to themselves, so normalising a key twice is normalising it once. */
  lemma KeyNamesAreStable(u: Locale, key: string)
    requires Lawful(u)
    ensures key in KEYS ==> NormalizeKey(u, key) == Some(key)
    ensures NormalizeKey(u, key).Some? ==> NormalizeKey(u, NormalizeKey(u, key).value) == NormalizeKey(u, key)
  {
    if key in KEYS { KeyFolds(u, key); }
    var again := NormalizeKey(u, key);
    if again.Some? { KeyFolds(u, again.value); }
  }

  // ---------- The whole request ----------

  predicate ValidRequest(r: Request) {
    && AllQuoteFree(Clauses(r))
    && QuoteCount(QueryText(r)) % 2 == 0
    && (r.bpmMin.Some? ==> r.bpmMin.value >= 0.0)
  }

  /** The clauses of the free query alone. */
  function Own(u: Locale, r: Request): Parsed { ParseTokens(u, NOTHING, Tokens(QueryText(r))) }

  lemma ClausesAreParsable(r: Request)
    requires r.bpmMin.Some? ==> r.bpmMin.value >= 0.0
    ensures forall i :: 0 <= i < |Clauses(r)| ==> Parsable(Clauses(r)[i])
  {
  }

  lemma TokenCount(u: Locale, clauses: seq<Clause>)
    ensures |AllTokens(u, clauses)| == |clauses|
  {
  }

  /** Parsing a composed request applies its structured clauses, in order, to what the free query says. */
  lemma ParseComposed(u: Locale, r: Request)
    requires Lawful(u) && BoundsPrint(u, r) && ValidRequest(r) && Clauses(r) != []
    ensures Composed(u, r).Some?
    ensures ParsedQuery(u, Composed(u, r).value) == AllOverridden(u, Own(u, r), Clauses(r))
  {
    hide Clauses, AllOverridden, ParseTokens, Trim, Tokens, AllTokens, QueryText, QuoteCount, Lawful, AllQuoteFree,
         BoundsPrint, AllPrint;
    TokensRoundTripIff(u, r);
    ClausesAreWellFormed(u, r);
    ClausesAreParsable(r);
    ClausesParse(u, Own(u, r), Clauses(r));
    ParseConcat(u, NOTHING, Tokens(QueryText(r)), AllTokens(u, Clauses(r)));
    TokenCount(u, Clauses(r));
  }

  lemma {:induction false} FoldKeepsQuote(u: Locale, s: string, i: nat) returns (k: nat)
    requires Lawful(u) && i < |s| && s[i] == '\"'
    ensures k < |FoldAll(u, s)| && FoldAll(u, s)[k] == '\"'
    decreases |s|
  {
    if i == |s| - 1 { k := |FoldAll(u, s[..i])|; } else { k := FoldKeepsQuote(u, s[..|s| - 1], i); }
  }

  /** The query is there, but writes nothing: it is made of quotes and the whitespace outside them. */
  predicate QuotesOnly(query: string) { Trim(query) != "" && Spelled(query, |query|) == "" }

  lemma QuotesOnlyIsSearchedFor(u: Locale, query: string)
    requires Lawful(u) && QuotesOnly(query)
    ensures Tokens(query) == [] && ParsedQuery(u, query).text != []
  {
    NoTokensIff(query);
    var i := NotBlank(query);
    SpellsNothing(query, |query|, i);
    var k := FoldKeepsQuote(u, query, i);
    TrimKeeps(FoldAll(u, query), k);
  }

  /**
   What the free query says in a structured request is how it would be parsed alone, exactly when it is not made of
   quotes only: such a query is searched for as text on its own, and says nothing beside a structured clause.
   */
  lemma OwnIsTheQueryParsedAloneIff(u: Locale, r: Request)
    requires Lawful(u)
    ensures Own(u, r) == ParsedQuery(u, QueryText(r)) <==> !QuotesOnly(QueryText(r))
  {
    NoTokensIff(QueryText(r));
    if QuotesOnly(QueryText(r)) { QuotesOnlyIsSearchedFor(u, QueryText(r)); }
  }

  lemma TwoQuotes()
    ensures QuotesOnly("\"\"") && QuoteCount("\"\"") == 2
  {
    var query := "\"\"";
    TrimVisible(query);
    assert query[..1] == "\"" && "\""[..0] == "";
    assert QuoteCount("") == 0 && QuoteCount("\"") == 1;
    assert Spelled(query, 0) == "" && Spelled(query, 1) == "";
  }

  lemma TypeIsNoText(u: Locale, p: Parsed)
    ensures Overridden(u, p, Value("type", "loop")).text == p.text
  {
    hide NormalizePlaybackType, NormalizeValue, NormalizeKey;
    TrimVisible("loop");
  }

  lemma OverriddenByOne(u: Locale, p: Parsed, c: Clause)
    ensures AllOverridden(u, p, [c]) == Overridden(u, p, c) && AllOverridden(u, p, []) == p
  {
    assert [c][..0] == [];
  }

  /** Two quotes and a type: alone the query is searched for as text, with the type no text is left to match. */
  lemma QuotesOnlyQuerySaysNothing(u: Locale)
    requires Lawful(u)
    ensures var r := TypeRequest("\"\"", "loop");
            && ValidRequest(r) && Clauses(r) != [] && QueryText(r) == "\"\""
            && ParsedQuery(u, QueryText(r)).text != []
            && Composed(u, r).Some? && ParsedQuery(u, Composed(u, r).value).text == []
  {
    hide Clauses, Composed, ParsedQuery, QueryText, Lawful, Overridden, Spelled, QuoteCount, Trim, Tokens;
    var r, query := TypeRequest("\"\"", "loop"), "\"\"";
    TypeRequestIs(u, query, "loop");
    TwoQuotes();
    QuotesOnlyIsSearchedFor(u, query);
    ParseComposed(u, r);
    OverriddenByOne(u, Own(u, r), Value("type", "loop"));
    TypeIsNoText(u, Own(u, r));
  }

  // ---------- Field by field ----------

  predicate NonBlank(value: Option<string>) { value.Some? ==> Trim(value.value) != "" }

  function NormalTags(u: Locale, tags: seq<string>): seq<string> {
    if tags == [] then []
    else
      var rest, v := NormalTags(u, tags[..|tags| - 1]), NormalizeValue(u, Trim(tags[|tags| - 1]));
      if v == "" then rest else rest + [v]
  }

  /** Each structured field replaces the one of the free query, even by nothing; tags are appended. */
  function Narrowed(u: Locale, own: Parsed, r: Request): Parsed {
    own.(playback := if r.sampleType.Some? then NormalizePlaybackType(u, Trim(r.sampleType.value)) else own.playback,
         instrument := if r.instrument.Some? then Some(NormalizeValue(u, Trim(r.instrument.value))) else own.instrument,
         key := if r.key.Some? then NormalizeKey(u, Trim(r.key.value)) else own.key,
         tags := own.tags + NormalTags(u, r.tags),
         bpm := if r.bpmMin.Some? || r.bpmMax.Some? then Some(NumberRange(r.bpmMin, r.bpmMax)) else own.bpm)
  }

  predicate NoBlankTags(tags: seq<string>) { forall i :: 0 <= i < |tags| ==> Trim(tags[i]) != "" }

  predicate NoBlankValues(r: Request) {
    NonBlank(r.sampleType) && NonBlank(r.instrument) && NonBlank(r.key) && NoBlankTags(r.tags)
  }

  lemma {:induction false} OverriddenConcat(u: Locale, p: Parsed, a: seq<Clause>, b: seq<Clause>)
    ensures AllOverridden(u, p, a + b) == AllOverridden(u, AllOverridden(u, p, a), b)
    decreases |b|
  {
    hide Overridden;
    if b == [] {
      assert a + b == a;
    } else {
      OverriddenConcat(u, p, a, b[..|b| - 1]);
      assert (a + b)[..|a + b| - 1] == a + b[..|b| - 1];
    }
  }

  lemma {:induction false} OverriddenByTags(u: Locale, p: Parsed, tags: seq<string>)
    requires NoBlankTags(tags)
    ensures AllOverridden(u, p, TagClauses(tags)) == p.(tags := p.tags + NormalTags(u, tags))
    decreases |tags|
  {
    hide Trim, NormalizeValue;
    if tags != [] {
      var n := |tags| - 1;
      OverriddenByTags(u, p, tags[..n]);
      assert TagClauses(tags)[..n] == TagClauses(tags[..n]);
    }
  }

  lemma OptionalOverrides(u: Locale, p: Parsed, field: string, value: Option<string>)
    requires NonBlank(value) && field in ["type", "instrument", "key"]
    ensures AllOverridden(u, p, Optional(field, value)) ==
              if value.None? then p
              else if field == "type" then p.(playback := NormalizePlaybackType(u, Trim(value.value)))
              else if field == "instrument" then p.(instrument := Some(NormalizeValue(u, Trim(value.value))))
              else p.(key := NormalizeKey(u, Trim(value.value)))
  {
    hide Trim, NormalizeValue, NormalizeKey, NormalizePlaybackType;
    OverriddenByOne(u, p, Value(field, if value.Some? then value.value else ""));
  }

  /** Without blank values the clauses say what the structured fields say. */
  lemma VisibleIsNarrowed(u: Locale, own: Parsed, r: Request)
    requires NoBlankValues(r)
    ensures AllOverridden(u, own, Clauses(r)) == Narrowed(u, own, r)
  {
    hide Trim, NormalizeValue, NormalizeKey, NormalizePlaybackType, AllOverridden, Optional, TagClauses, NormalTags;
    var a, b, c, d := Optional("type", r.sampleType), Optional("instrument", r.instrument), Optional("key", r.key),
      TagClauses(r.tags);
    var p1 := AllOverridden(u, own, a);
    OptionalOverrides(u, own, "type", r.sampleType);
    var p2 := AllOverridden(u, p1, b);
    OptionalOverrides(u, p1, "instrument", r.instrument);
    var p3 := AllOverridden(u, p2, c);
    OptionalOverrides(u, p2, "key", r.key);
    var p4 := AllOverridden(u, p3, d);
    OverriddenByTags(u, p3, r.tags);
    OverriddenConcat(u, own, a, b);
    OverriddenConcat(u, own, a + b, c);
    OverriddenConcat(u, own, a + b + c, d);
    var e := if r.bpmMin.Some? || r.bpmMax.Some? then [Bpm(r.bpmMin, r.bpmMax)] else [];
    OverriddenConcat(u, own, a + b + c + d, e);
    OverriddenByOne(u, p4, Bpm(r.bpmMin, r.bpmMax));
  }

  // ---------- Blank values ----------

  predicate Blank(c: Clause) { c.Value? && Trim(c.value) == "" }

  /** The clauses with something to say. */
  function NonBlankClauses(clauses: seq<Clause>): seq<Clause> {
    if clauses == [] then []
    else
      var rest, c := NonBlankClauses(clauses[..|clauses| - 1]), clauses[|clauses| - 1];
      if Blank(c) then rest else rest + [c]
  }

  /** The words that blank clauses are searched for as. */
  function BlankWords(u: Locale, clauses: seq<Clause>): seq<string> {
    if clauses == [] then []
    else
      var rest, c := BlankWords(u, clauses[..|clauses| - 1]), clauses[|clauses| - 1];
      if Blank(c) then rest + [NormalizeValue(u, Token(u, c))] else rest
  }

  function GivenTags(tags: seq<string>): seq<string> {
    if tags == [] then []
    else
      var rest, tag := GivenTags(tags[..|tags| - 1]), tags[|tags| - 1];
      if Trim(tag) == "" then rest else rest + [tag]
  }

  function GivenValue(value: Option<string>): Option<string> { if NonBlank(value) then value else None }

  /** The request without its blank values. */
  function Given(r: Request): Request {
    r.(sampleType := GivenValue(r.sampleType), instrument := GivenValue(r.instrument), key := GivenValue(r.key),
       tags := GivenTags(r.tags))
  }

  lemma BlankClauseIsAWord(u: Locale, p: Parsed, c: Clause)
    requires Lawful(u) && WellFormed(c) && Blank(c)
    ensures Overridden(u, p, c) == p.(text := p.text + [NormalizeValue(u, Token(u, c))])
  {
    hide Lawful, NormalizeValue, Trim;
    FieldsAreLowercase(c.field);
    NormalKeepsHead(u, Token(u, c));
  }

  lemma NonBlankClauseLeavesText(u: Locale, p: Parsed, text: seq<string>, c: Clause)
    requires !Blank(c)
    ensures Overridden(u, p.(text := text), c) == Overridden(u, p, c).(text := text)
  {
    hide NormalizeValue, NormalizeKey, NormalizePlaybackType, Trim;
  }

  lemma OneMore(u: Locale, p: Parsed, clauses: seq<Clause>, c: Clause)
    ensures AllOverridden(u, p, clauses + [c]) == Overridden(u, AllOverridden(u, p, clauses), c)
  {
    hide Overridden;
    assert (clauses + [c])[..|clauses|] == clauses;
  }

  /** Blank clauses only add words to the text, and the other clauses do what they would do without them. */
  lemma {:induction false} BlankClausesAreWords(u: Locale, p: Parsed, clauses: seq<Clause>)
    requires Lawful(u) && forall i :: 0 <= i < |clauses| ==> WellFormed(clauses[i])
    ensures AllOverridden(u, p, clauses) ==
              AllOverridden(u, p, NonBlankClauses(clauses)).(text := p.text + BlankWords(u, clauses))
    decreases |clauses|
  {
    hide Lawful, Overridden, NormalizeValue, Blank, Token, WellFormed;
    if clauses == [] {
      assert p.text + BlankWords(u, clauses) == p.text;
    } else {
      var n := |clauses| - 1;
      var c, init := clauses[n], clauses[..n];
      BlankClausesAreWords(u, p, init);
      var before, words := AllOverridden(u, p, NonBlankClauses(init)), BlankWords(u, init);
      if Blank(c) {
        BlankClauseIsAWord(u, AllOverridden(u, p, init), c);
        assert NonBlankClauses(clauses) == NonBlankClauses(init);
        assert (p.text + words) + [NormalizeValue(u, Token(u, c))] == p.text + BlankWords(u, clauses);
      } else {
        NonBlankClauseLeavesText(u, before, p.text + words, c);
        OneMore(u, p, NonBlankClauses(init), c);
        assert BlankWords(u, clauses) == words;
      }
    }
  }

  lemma {:induction false} NonBlankConcat(a: seq<Clause>, b: seq<Clause>)
    ensures NonBlankClauses(a + b) == NonBlankClauses(a) + NonBlankClauses(b)
    decreases |b|
  {
    hide Blank;
    if b == [] {
      assert a + b == a;
    } else {
      NonBlankConcat(a, b[..|b| - 1]);
      assert (a + b)[..|a + b| - 1] == a + b[..|b| - 1];
    }
  }

  lemma {:induction false} GivenTagClauses(tags: seq<string>)
    ensures NonBlankClauses(TagClauses(tags)) == TagClauses(GivenTags(tags)) && NoBlankTags(GivenTags(tags))
    decreases |tags|
  {
    hide Trim;
    if tags != [] {
      var n := |tags| - 1;
      GivenTagClauses(tags[..n]);
      assert TagClauses(tags)[..n] == TagClauses(tags[..n]);
    }
  }

  lemma NonBlankOne(c: Clause)
    ensures NonBlankClauses([c]) == if Blank(c) then [] else [c]
  {
    hide Blank;
    assert [c][..0] == [];
  }

  lemma GivenOptional(field: string, value: Option<string>)
    ensures NonBlankClauses(Optional(field, value)) == Optional(field, GivenValue(value))
  {
    hide Trim;
    NonBlankOne(Value(field, if value.Some? then value.value else ""));
  }

  lemma NonBlankNone()
    ensures NonBlankClauses([]) == []
  {
  }

  lemma GivenClauses(r: Request)
    ensures NonBlankClauses(Clauses(r)) == Clauses(Given(r)) && NoBlankValues(Given(r))
  {
    hide NonBlankClauses, Optional, TagClauses, GivenTags, Trim, NoBlankTags;
    var a, b, c := Optional("type", r.sampleType), Optional("instrument", r.instrument), Optional("key", r.key);
    var d, e := TagClauses(r.tags), if r.bpmMin.Some? || r.bpmMax.Some? then [Bpm(r.bpmMin, r.bpmMax)] else [];
    GivenOptional("type", r.sampleType);
    GivenOptional("instrument", r.instrument);
    GivenOptional("key", r.key);
    GivenTagClauses(r.tags);
    NonBlankConcat(a, b);
    NonBlankConcat(a + b, c);
    NonBlankConcat(a + b + c, d);
    NonBlankConcat(a + b + c + d, e);
    NonBlankOne(Bpm(r.bpmMin, r.bpmMax));
    NonBlankNone();
  }

  /**
   The clauses of a request say what its structured fields say, the blank ones left out; a blank value is searched for
   as a word, with the name of its field.
   */
  lemma AllOverriddenIsNarrowed(u: Locale, own: Parsed, r: Request)
    requires Lawful(u)
    ensures AllOverridden(u, own, Clauses(r)) ==
              Narrowed(u, own, Given(r)).(text := own.text + BlankWords(u, Clauses(r)))
  {
    hide Clauses, AllOverridden, NonBlankClauses, BlankWords, Narrowed, Given, NoBlankValues, Lawful, WellFormed;
    ClausesAreWellFormed(u, r);
    BlankClausesAreWords(u, own, Clauses(r));
    GivenClauses(r);
    VisibleIsNarrowed(u, own, Given(r));
  }

  lemma {:induction false} NoWordIff(u: Locale, clauses: seq<Clause>)
    ensures |NonBlankClauses(clauses)| + |BlankWords(u, clauses)| == |clauses|
    ensures BlankWords(u, clauses) == [] <==> NonBlankClauses(clauses) == clauses
    decreases |clauses|
  {
    hide Blank, NormalizeValue, Token;
    if clauses != [] { NoWordIff(u, clauses[..|clauses| - 1]); }
  }

  lemma {:induction false} AllTagsGiven(tags: seq<string>)
    ensures |GivenTags(tags)| <= |tags|
    ensures |GivenTags(tags)| == |tags| ==> GivenTags(tags) == tags
    decreases |tags|
  {
    hide Trim;
    if tags != [] {
      var init, tag := tags[..|tags| - 1], tags[|tags| - 1];
      AllTagsGiven(init);
      if |GivenTags(tags)| == |tags| { assert GivenTags(tags) == init + [tag]; }
    }
  }

  lemma {:induction false} NoBlankTagsGiven(tags: seq<string>)
    requires NoBlankTags(tags)
    ensures GivenTags(tags) == tags
    decreases |tags|
  {
    hide Trim;
    if tags != [] { NoBlankTagsGiven(tags[..|tags| - 1]); }
  }

  /** Leaving blank values out changes nothing, and they leave no word behind, exactly when there is none. */
  lemma NoBlankValuesIff(u: Locale, r: Request)
    ensures NoBlankValues(r) <==> Given(r) == r
    ensures NoBlankValues(r) <==> BlankWords(u, Clauses(r)) == []
  {
    hide BlankWords, NonBlankClauses, Trim, NoBlankTags;
    GivenClauses(r);
    NoWordIff(u, Clauses(r));
    AllTagsGiven(r.tags);
    if NoBlankValues(r) { NoBlankTagsGiven(r.tags); }
  }

  /** The clauses say exactly what the structured fields say if and only if no field is given blank. */
  lemma AllOverriddenIsNarrowedIff(u: Locale, own: Parsed, r: Request)
    requires Lawful(u)
    ensures AllOverridden(u, own, Clauses(r)) == Narrowed(u, own, r) <==> NoBlankValues(r)
  {
    hide Clauses, AllOverridden, NoBlankValues, Lawful, BlankWords;
    AllOverriddenIsNarrowed(u, own, r);
    NoBlankValuesIff(u, r);
    if NoBlankValues(r) { VisibleIsNarrowed(u, own, r); }
  }

  lemma NothingSaid(u: Locale, r: Request)
    requires r.query.None?
    ensures QueryText(r) == "" && QuoteCount(QueryText(r)) == 0 && Own(u, r) == NOTHING && Trim("") == ""
  {
  }

  /** A blank type does not restrict the type, and asks for samples that match the word "type:". */
  lemma BlankTypeIsSearchedAsText(u: Locale)
    requires Lawful(u)
    ensures var r := Request(None, Some(""), None, None, [], None, None);
            && ValidRequest(r) && Clauses(r) != [] && Composed(u, r).Some?
            && ParsedQuery(u, Composed(u, r).value) == NOTHING.(text := [NormalizeValue(u, "type:")])
            && NormalizeValue(u, "type:") != ""
  {
    hide AllOverridden, ParsedQuery, Composed, NormalizeValue, Lawful, Overridden, Trim, QuoteCount;
    var r := Request(None, Some(""), None, None, [], None, None);
    assert Clauses(r) == [Value("type", "")];
    NothingSaid(u, r);
    ParseComposed(u, r);
    OverriddenByOne(u, NOTHING, Value("type", ""));
    BlankClauseIsAWord(u, NOTHING, Value("type", ""));
    assert "type" + ":" + "" == "type:";
    assert [] + [NormalizeValue(u, "type:")] == [NormalizeValue(u, "type:")];
    NormalKeepsHead(u, "type:");
  }

  lemma ParseOne(u: Locale, p: Parsed, token: string)
    ensures ParseTokens(u, p, [token]) == ParseToken(u, p, token)
  {
    hide ParseToken;
    assert [token][..0] == [];
  }

  /** No field of the language begins with an "a". */
  lemma UnknownFieldIsText(u: Locale, p: Parsed, field: string, value: string)
    requires Lawful(u) && field != "" && field[0] == 'a' && ':' !in field && Trim(value) != ""
    ensures ParseToken(u, p, field + ":" + value) == PushText(u, p, false, field + ":" + value)
  {
    hide NormalizeValue, Lawful, Without, Trim, SplitOnce, PushText, NormalizeKey, NormalizePlaybackType, PushTag,
         ParseNumberRange;
    SplitAtFirst(field, ':', value);
    assert field + [':'] + value == field + ":" + value;
    NormalKeepsHead(u, field);
    WithoutKeepsHead(NormalizeValue(u, field), "_-");
  }

  /** The stray quote loses the meaning too: the type is not restricted, and the clause is searched for as text. */
  lemma StrayQuoteLosesTheType(u: Locale)
    requires Lawful(u)
    ensures var r := TypeRequest("a\"", "loop");
            && Composed(u, r).Some?
            && ParsedQuery(u, Composed(u, r).value) == NOTHING.(text := [NormalizeValue(u, "a type:loop")])
            && NormalizeValue(u, "a type:loop") != ""
  {
    hide Composed, Tokens, NormalizeValue, Lawful, ParseToken, Trim;
    var token := "a type:loop";
    StrayQuoteLosesTheClause(u);
    TrimVisible("loop");
    UnknownFieldIsText(u, NOTHING, "a type", "loop");
    assert "a type" + ":" + "loop" == token;
    NormalKeepsHead(u, token);
    assert NOTHING.text + [NormalizeValue(u, token)] == [NormalizeValue(u, token)];
    ParseOne(u, NOTHING, token);
  }

  // ---------- The meaning of a request ----------

  predicate WordsMatch(u: Locale, words: seq<string>, sample: Sample) {
    forall w :: w in words ==> u.fuzzy(w, [sample.fileName, Join(sample.tags)])
  }

  lemma MoreWordsMatch(u: Locale, own: Parsed, words: seq<string>, sample: Sample)
    ensures TextMatches(u, own.(text := own.text + words), sample) <==>
            TextMatches(u, own, sample) && WordsMatch(u, words, sample)
  {
    hide HasTag, Join;
  }

  /** The structured fields leave the words of the query alone. */
  lemma TextIsNotNarrowed(u: Locale, own: Parsed, r: Request, sample: Sample)
    ensures forall text :: TextMatches(u, Narrowed(u, own, Given(r)).(text := text), sample) <==>
                           TextMatches(u, own.(text := text), sample)
  {
    hide Given, NormalTags, HasTag, Join, NormalizeValue, NormalizeKey, NormalizePlaybackType, Trim;
  }

  /**
   The meaning of a structured request: a sample matches the composed and re-parsed text exactly when it satisfies
   the free query's own words and tags, each structured field in place of the query's field of that kind, and the
   words that blank fields are searched for as. Without blank fields these are the request's own fields and no words
   (`NoBlankValuesIff`).
   */
  lemma MeaningIsPreserved(u: Locale, r: Request, sample: Sample)
    requires Lawful(u) && BoundsPrint(u, r) && ValidRequest(r) && Clauses(r) != []
    ensures Composed(u, r).Some?
    ensures var own, g := Own(u, r), Given(r);
            var kind := if g.sampleType.Some? then NormalizePlaybackType(u, Trim(g.sampleType.value)) else own.playback;
            var instrument := if g.instrument.Some? then Some(NormalizeValue(u, Trim(g.instrument.value)))
                              else own.instrument;
            var key := if g.key.Some? then NormalizeKey(u, Trim(g.key.value)) else own.key;
            Matches(u, ParsedQuery(u, Composed(u, r).value), sample) <==>
              && TextMatches(u, own, sample)
              && WordsMatch(u, BlankWords(u, Clauses(r)), sample)
              && (forall t :: t in own.tags ==> HasTag(u, sample, t))
              && (forall t :: t in NormalTags(u, g.tags) ==> HasTag(u, sample, t))
              && PlaybackMatches(u, kind, sample)
              && InstrumentMatches(u, instrument, sample)
              && KeyMatches(u, key, sample)
              && (if r.bpmMin.Some? || r.bpmMax.Some?
                  then
                    && sample.bpm.Some?
                    && (r.bpmMin.Some? ==> r.bpmMin.value <= sample.bpm.value)
                    && (r.bpmMax.Some? ==> sample.bpm.value <= r.bpmMax.value)
                  else own.bpm.Some? ==> InRange(sample.bpm, own.bpm.value))
  {
    hide Clauses, AllOverridden, ParsedQuery, Composed, Own, Lawful, BoundsPrint, ValidRequest, NormalTags, Trim,
         NormalizeValue, NormalizeKey, NormalizePlaybackType, HasTag, PlaybackMatches, InstrumentMatches, KeyMatches,
         BlankWords, WordsMatch, TextMatches, GivenValue, GivenTags;
    ParseComposed(u, r);
    AllOverriddenIsNarrowed(u, Own(u, r), r);
    MoreWordsMatch(u, Own(u, r), BlankWords(u, Clauses(r)), sample);
    TextIsNotNarrowed(u, Own(u, r), r, sample);
  }
}
