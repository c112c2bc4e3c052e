/** Structured search requests printed in the search language, and the language parsed and matched. */
module SearchQueries {
  import opened Options
  import opened Texts
  import opened SearchTokens

  /** Unicode lower-casing, number printing and reading, and fuzzy text matching, none of which is modelled. */
  datatype Locale = Locale(lower: char -> string, show: real -> string, parse: string -> Option<real>,
                           fuzzy: (string, seq<string>) -> bool)

  function LowerAscii(c: char): char { if 'A' <= c <= 'Z' then (c as int + 32) as char else c }

  /** What is used of lower-casing: on ASCII it folds the letters and keeps everything else. */
  ghost predicate Lawful(u: Locale) { forall c :: c as int < 128 ==> u.lower(c) == [LowerAscii(c)] }

  predicate Printed(s: string) { s != "" && Plain(s) }

  /** What is used of numbers: a printed one is visible text that reads back, with a sign only when negative. */
  predicate ReadsBack(u: Locale, x: real) {
    var s := u.show(x);
    Printed(s) && u.parse(s) == Some(x) && if x < 0.0 then s[0] == '-' else '-' !in s
  }

  predicate Prints(u: Locale, x: Option<real>) { x.Some? ==> ReadsBack(u, x.value) }

  datatype Request = Request(query: Option<string>, sampleType: Option<string>, instrument: Option<string>,
                             key: Option<string>, tags: seq<string>, bpmMin: Option<real>, bpmMax: Option<real>)

  /** The tempo bounds the request carries print and read back. */
  predicate BoundsPrint(u: Locale, r: Request) { Prints(u, r.bpmMin) && Prints(u, r.bpmMax) }

  // ---------- Text helpers ----------

  function SplitOnce(s: string, c: char): Option<(string, string)> {
    if s == "" then None
    else if s[0] == c then Some(("", s[1..]))
    else match SplitOnce(s[1..], c)
      case None => None
      case Some(parts) => Some(([s[0]] + parts.0, parts.1))
  }

  function Without(s: string, removed: string): string {
    if s == "" then ""
    else if s[|s| - 1] in removed then Without(s[..|s| - 1], removed)
    else Without(s[..|s| - 1], removed) + [s[|s| - 1]]
  }

  /** Full-width forms fold to ASCII before lower-casing. */
  function FoldChar(u: Locale, c: char): string {
    if c == '\U{3000}' then u.lower(' ')
    else if '\U{FF01}' <= c <= '\U{FF5E}' then u.lower((c as int - 0xFEE0) as char)
    else u.lower(c)
  }

  function FoldAll(u: Locale, s: string): string {
    if s == "" then "" else FoldAll(u, s[..|s| - 1]) + FoldChar(u, s[|s| - 1])
  }

  function NormalizeValue(u: Locale, s: string): string { Trim(FoldAll(u, s)) }

  function NormalizeField(u: Locale, s: string): string { Without(NormalizeValue(u, s), "_-") }

  function NormalizePlaybackLabel(u: Locale, s: string): string {
    var plain := Without(NormalizeValue(u, s), "_- ");
    if plain == "one" || plain == "shot" || plain == "oneshot" then "oneshot" else plain
  }

  function NormalizePlaybackType(u: Locale, s: string): Option<string> {
    var kind := NormalizePlaybackLabel(u, s);
    if kind == "loop" || kind == "oneshot" then Some(kind) else None
  }

  function FlatKey(root: char): Option<string> {
    if root == 'D' then Some("C#") else if root == 'E' then Some("D#") else if root == 'G' then Some("F#")
    else if root == 'A' then Some("G#") else if root == 'B' then Some("A#") else None
  }

  function AsciiUpper(c: char): char { if 'a' <= c <= 'z' then (c as int - 32) as char else c }

  const KEYS := ["C", "C#", "D", "D#", "E", "F", "F#", "G", "G#", "A", "A#", "B"]

  function NormalizeKey(u: Locale, s: string): Option<string> {
    var folded := NormalizeValue(u, s);
    var name := if folded != "" && folded[|folded| - 1] == 'm' then folded[..|folded| - 1] else folded;
    if name == "" then None
    else
      var root, suffix := AsciiUpper(name[0]), name[1..];
      var key := if suffix == "" then Some([root]) else if suffix == "#" then Some([root] + "#")
                 else if suffix == "b" then FlatKey(root) else None;
      if key.Some? && key.value in KEYS then key else None
  }

  // ---------- Parsing ----------

  datatype NumberRange = NumberRange(min: Option<real>, max: Option<real>)

  datatype Parsed = Parsed(text: seq<string>, excluded: seq<string>, bpm: Option<NumberRange>, playback: Option<string>,
                           instrument: Option<string>, key: Option<string>, tags: seq<string>,
                           excludedTags: seq<string>)

  const NOTHING := Parsed([], [], None, None, None, None, [], [])

  function PushText(u: Locale, p: Parsed, negated: bool, value: string): Parsed {
    var v := NormalizeValue(u, value);
    if v == "" then p else if negated then p.(excluded := p.excluded + [v]) else p.(text := p.text + [v])
  }

  function PushTag(u: Locale, p: Parsed, negated: bool, value: string): Parsed {
    var v := NormalizeValue(u, value);
    if v == "" then p else if negated then p.(excludedTags := p.excludedTags + [v]) else p.(tags := p.tags + [v])
  }

  function ParseNumber(u: Locale, s: string): Option<real> {
    var t := Trim(s);
    if t == "" then None else u.parse(t)
  }

  function ParseNumberRange(u: Locale, s: string): Option<NumberRange> {
    match SplitOnce(s, '-')
    case Some(parts) =>
      var range := NumberRange(ParseNumber(u, parts.0), ParseNumber(u, parts.1));
      if range.min.Some? || range.max.Some? then Some(range) else None
    case None =>
      var n := ParseNumber(u, s);
      if n.Some? then Some(NumberRange(n, n)) else None
  }

  function ParseToken(u: Locale, p: Parsed, token: string): Parsed {
    var negated := |token| > 1 && token[0] == '-';
    var body := if negated then token[1..] else token;
    match SplitOnce(body, ':')
    case None => PushText(u, p, negated, body)
    case Some(parts) =>
      var field, value := NormalizeField(u, parts.0), Trim(parts.1);
      if value == "" then PushText(u, p, negated, body)
      else if field == "bpm" then if negated then p else p.(bpm := ParseNumberRange(u, value))
      else if field in ["type", "playback", "playbacktype", "sampletype"] then
        if negated then p else p.(playback := NormalizePlaybackType(u, value))
      else if field in ["instrument", "instrumenttype"] then
        if negated then p else p.(instrument := Some(NormalizeValue(u, value)))
      else if field == "key" then if negated then p else p.(key := NormalizeKey(u, value))
      else if field in ["tag", "tags"] then PushTag(u, p, negated, value)
      else if field in ["favorite", "favourite", "fav"] then p
      else PushText(u, p, negated, body)
  }

  function ParseTokens(u: Locale, p: Parsed, tokens: seq<string>): Parsed {
    if tokens == [] then p else ParseToken(u, ParseTokens(u, p, tokens[..|tokens| - 1]), tokens[|tokens| - 1])
  }

  /** A query of quotes only has no token and is searched for as text. */
  function ParsedQuery(u: Locale, query: string): Parsed {
    if Tokens(query) == [] && Trim(query) != "" then PushText(u, NOTHING, false, query)
    else ParseTokens(u, NOTHING, Tokens(query))
  }

  method Parse(u: Locale, query: string) returns (parsed: Parsed)
    ensures parsed == ParsedQuery(u, query)
  {
    parsed := NOTHING;
    var tokens := Tokenize(query);
    if tokens == [] && Trim(query) != "" { return PushText(u, parsed, false, query); }
    for i := 0 to |tokens|
      invariant parsed == ParseTokens(u, NOTHING, tokens[..i])
    {
      assert tokens[..i + 1][..i] == tokens[..i];
      parsed := ParseToken(u, parsed, tokens[i]);
    }
    assert tokens[..|tokens|] == tokens;
  }

  // ---------- Matching ----------

  datatype Sample = Sample(fileName: string, tags: seq<string>, bpm: Option<real>, playbackType: string,
                           sampleType: Option<string>, instrumentType: string, musicalKey: Option<string>)

  predicate HasTag(u: Locale, sample: Sample, tag: string) {
    exists i :: 0 <= i < |sample.tags| && NormalizeValue(u, sample.tags[i]) == tag
  }

  predicate InRange(value: Option<real>, range: NumberRange) {
    && value.Some?
    && (range.min.Some? ==> value.value >= range.min.value)
    && (range.max.Some? ==> value.value <= range.max.value)
  }

  predicate TextMatches(u: Locale, p: Parsed, sample: Sample) {
    var targets := [sample.fileName, Join(sample.tags)];
    && (forall t :: t in p.text ==> u.fuzzy(t, targets))
    && (forall t :: t in p.excluded ==> !u.fuzzy(t, targets))
    && (forall t :: t in p.excludedTags ==> !HasTag(u, sample, t))
  }

  predicate PlaybackMatches(u: Locale, wanted: Option<string>, sample: Sample) {
    wanted.Some? ==>
      || NormalizePlaybackLabel(u, sample.playbackType) == wanted.value
      || (sample.sampleType.Some? && NormalizePlaybackLabel(u, sample.sampleType.value) == wanted.value)
  }

  predicate InstrumentMatches(u: Locale, wanted: Option<string>, sample: Sample) {
    wanted.Some? ==> NormalizeValue(u, sample.instrumentType) == wanted.value
  }

  predicate KeyMatches(u: Locale, wanted: Option<string>, sample: Sample) {
    wanted.Some? ==> sample.musicalKey.Some? && NormalizeKey(u, sample.musicalKey.value) == wanted
  }

  predicate Matches(u: Locale, p: Parsed, sample: Sample) {
    && TextMatches(u, p, sample)
    && (p.bpm.Some? ==> InRange(sample.bpm, p.bpm.value))
    && PlaybackMatches(u, p.playback, sample)
    && InstrumentMatches(u, p.instrument, sample)
    && KeyMatches(u, p.key, sample)
    && (forall t :: t in p.tags ==> HasTag(u, sample, t))
  }

  // ---------- Composing ----------

  datatype Clause = Value(field: string, value: string) | Bpm(min: Option<real>, max: Option<real>)

  function Optional(field: string, value: Option<string>): seq<Clause> {
    if value.Some? then [Value(field, value.value)] else []
  }

  function TagClauses(tags: seq<string>): seq<Clause> {
    seq(|tags|, i requires 0 <= i < |tags| => Value("tag", tags[i]))
  }

  function Clauses(r: Request): seq<Clause> {
    Optional("type", r.sampleType) + Optional("instrument", r.instrument) + Optional("key", r.key) + TagClauses(r.tags)
    + if r.bpmMin.Some? || r.bpmMax.Some? then [Bpm(r.bpmMin, r.bpmMax)] else []
  }

  function Show(u: Locale, x: Option<real>): string { if x.Some? then u.show(x.value) else "" }

  /** How a clause is written, and the token it should come back as. */
  function Written(u: Locale, c: Clause): string {
    match c
    case Value(field, value) => field + ":\"" + value + "\""
    case Bpm(min, max) => "bpm:" + Show(u, min) + "-" + Show(u, max)
  }

  function Token(u: Locale, c: Clause): string {
    match c
    case Value(field, value) => field + ":" + value
    case Bpm(min, max) => "bpm:" + Show(u, min) + "-" + Show(u, max)
  }

  function FreeQuery(r: Request): seq<string> {
    if r.query.Some? && Trim(r.query.value) != "" then [r.query.value] else []
  }

  predicate QuoteFree(c: Clause) { c.Value? ==> '\"' !in c.value }

  predicate AllQuoteFree(clauses: seq<Clause>) { forall i :: 0 <= i < |clauses| ==> QuoteFree(clauses[i]) }

  function AllWritten(u: Locale, clauses: seq<Clause>): seq<string> {
    seq(|clauses|, i requires 0 <= i < |clauses| => Written(u, clauses[i]))
  }

  function AllTokens(u: Locale, clauses: seq<Clause>): seq<string> {
    seq(|clauses|, i requires 0 <= i < |clauses| => Token(u, clauses[i]))
  }

  /** The composed string, or none when some structured value holds a quote. */
  function Composed(u: Locale, r: Request): Option<string> {
    if AllQuoteFree(Clauses(r)) then Some(Join(FreeQuery(r) + AllWritten(u, Clauses(r)))) else None
  }

  /** A value holding a quote is refused; any other comes back from the tokenizer as one token, whitespace and all. */
  method StructuredTerm(field: string, value: string) returns (term: Option<string>)
    ensures term.None? <==> '\"' in value
    ensures term.Some? ==> term.value == field + ":\"" + value + "\""
    ensures term.Some? && Lowercase(field) ==> Tokens(term.value) == [field + ":" + value]
  {
    hide Run;
    if '\"' in value { return None; }
    term := Some(field + ":\"" + value + "\"");
    if Lowercase(field) { ValueScans(START, field, value); }
  }

  /** One optional structured value: pushed when present, refused when it holds a quote. */
  method PushOptional(u: Locale, terms: seq<string>, field: string, value: Option<string>)
    returns (ok: bool, more: seq<string>)
    ensures ok <==> AllQuoteFree(Optional(field, value))
    ensures ok ==> more == terms + AllWritten(u, Optional(field, value))
  {
    if value.None? { return true, terms; }
    assert QuoteFree(Optional(field, value)[0]) <==> '\"' !in value.value;
    var term := StructuredTerm(field, value.value);
    if term.None? { return false, terms; }
    return true, terms + [term.value];
  }

  lemma TagWritten(u: Locale, tag: string)
    ensures Written(u, Value("tag", tag)) == "tag" + ":\"" + tag + "\""
  {
  }

  method PushTags(u: Locale, terms: seq<string>, tags: seq<string>) returns (ok: bool, more: seq<string>)
    ensures ok <==> AllQuoteFree(TagClauses(tags))
    ensures ok ==> more == terms + AllWritten(u, TagClauses(tags))
  {
    hide Written;
    ghost var clauses := TagClauses(tags);
    more := terms;
    for i := 0 to |tags|
      invariant more == terms + AllWritten(u, clauses[..i]) && AllQuoteFree(clauses[..i])
    {
      var term := StructuredTerm("tag", tags[i]);
      assert QuoteFree(clauses[i]) <==> term.Some?;
      if term.None? { return false, terms; }
      TagWritten(u, tags[i]);
      assert clauses[..i + 1] == clauses[..i] + [clauses[i]];
      more := more + [term.value];
    }
    assert clauses[..|tags|] == clauses;
    ok := true;
  }

  lemma BpmPart(u: Locale, min: Option<real>, max: Option<real>)
    ensures AllWritten(u, [Bpm(min, max)]) == ["bpm:" + Show(u, min) + "-" + Show(u, max)]
    ensures AllQuoteFree([Bpm(min, max)]) && AllQuoteFree([]) && AllWritten(u, []) == []
  {
  }

  lemma ConcatParts(u: Locale, a: seq<Clause>, b: seq<Clause>)
    ensures AllQuoteFree(a + b) <==> AllQuoteFree(a) && AllQuoteFree(b)
    ensures AllWritten(u, a + b) == AllWritten(u, a) + AllWritten(u, b)
    ensures AllTokens(u, a + b) == AllTokens(u, a) + AllTokens(u, b)
  {
    hide Written, Token, QuoteFree;
    if AllQuoteFree(a + b) {
      forall i | 0 <= i < |a| ensures QuoteFree(a[i]) { assert (a + b)[i] == a[i]; }
      forall i | 0 <= i < |b| ensures QuoteFree(b[i]) { assert (a + b)[|a| + i] == b[i]; }
    }
  }

  lemma PartsOfClauses(u: Locale, r: Request)
    ensures var a, b, c, d := Optional("type", r.sampleType), Optional("instrument", r.instrument),
            Optional("key", r.key), TagClauses(r.tags);
            && (AllQuoteFree(Clauses(r)) <==> AllQuoteFree(a) && AllQuoteFree(b) && AllQuoteFree(c) && AllQuoteFree(d))
            && AllWritten(u, Clauses(r)) == AllWritten(u, a) + AllWritten(u, b) + AllWritten(u, c) + AllWritten(u, d)
                 + if r.bpmMin.Some? || r.bpmMax.Some? then ["bpm:" + Show(u, r.bpmMin) + "-" + Show(u, r.bpmMax)]
                   else []
  {
    hide AllQuoteFree, AllWritten;
    var a, b, c, d := Optional("type", r.sampleType), Optional("instrument", r.instrument), Optional("key", r.key),
      TagClauses(r.tags);
    var e := if r.bpmMin.Some? || r.bpmMax.Some? then [Bpm(r.bpmMin, r.bpmMax)] else [];
    ConcatParts(u, a, b);
    ConcatParts(u, a + b, c);
    ConcatParts(u, a + b + c, d);
    ConcatParts(u, a + b + c + d, e);
    BpmPart(u, r.bpmMin, r.bpmMax);
    assert Clauses(r) == a + b + c + d + e;
  }

  method Compose(u: Locale, r: Request) returns (composed: Option<string>)
    ensures composed == Composed(u, r)
  {
    hide Join, Trim, Written, AllQuoteFree, AllWritten, TagClauses, Optional;
    PartsOfClauses(u, r);
    var ok: bool;
    var terms := FreeQuery(r);
    ok, terms := PushOptional(u, terms, "type", r.sampleType);
    if !ok { return None; }
    ok, terms := PushOptional(u, terms, "instrument", r.instrument);
    if !ok { return None; }
    ok, terms := PushOptional(u, terms, "key", r.key);
    if !ok { return None; }
    ok, terms := PushTags(u, terms, r.tags);
    if !ok { return None; }
    if r.bpmMin.Some? || r.bpmMax.Some? {
      terms := terms + ["bpm:" + Show(u, r.bpmMin) + "-" + Show(u, r.bpmMax)];
    }
    assert terms == FreeQuery(r) + AllWritten(u, Clauses(r));
    composed := Some(Join(terms));
  }
}
