/** What each clause of the search language asks of a sample, in plain terms: numbers, spellings and pitches. */
module SearchClauses {
  import opened Options
  import opened Texts
  import opened SearchTokens
  import opened SearchQueries
  import opened SearchRoundTrip
  import opened SearchMeaning

  // ---------- ASCII text ----------

  predicate Ascii(s: string) { forall i :: 0 <= i < |s| ==> s[i] as int < 128 }

  function Lower(s: string): (t: string)
    ensures |t| == |s|
  {
    seq(|s|, i requires 0 <= i < |s| => LowerAscii(s[i]))
  }

  lemma FoldAsciiChar(u: Locale, c: char)
    requires Lawful(u) && c as int < 128
    ensures FoldChar(u, c) == [LowerAscii(c)]
  {
  }

  lemma {:induction false} FoldAscii(u: Locale, s: string)
    requires Lawful(u) && Ascii(s)
    ensures FoldAll(u, s) == Lower(s)
    decreases |s|
  {
    if s != "" {
      FoldAscii(u, s[..|s| - 1]);
      FoldAsciiChar(u, s[|s| - 1]);
      assert Lower(s) == Lower(s[..|s| - 1]) + [LowerAscii(s[|s| - 1])];
    }
  }

  /** On ASCII text normalising is lower-casing and trimming. */
  lemma NormalizeAscii(u: Locale, s: string)
    requires Lawful(u) && Ascii(s)
    ensures NormalizeValue(u, s) == Trim(Lower(s))
  {
    FoldAscii(u, s);
  }

  /** The full-width form of a printable ASCII character. */
  function Wide(c: char): char {
    if '!' <= c <= '~' then (c as int + 0xFEE0) as char else if c == ' ' then '\U{3000}' else c
  }

  function WideText(s: string): string { seq(|s|, i requires 0 <= i < |s| => Wide(s[i])) }

  lemma WideFoldsChar(u: Locale, c: char)
    requires c as int < 128
    ensures FoldChar(u, Wide(c)) == FoldChar(u, c)
  {
  }

  lemma {:induction false} WideFolds(u: Locale, s: string)
    requires Ascii(s)
    ensures FoldAll(u, WideText(s)) == FoldAll(u, s)
    decreases |s|
  {
    if s != "" {
      var n := |s| - 1;
      WideFolds(u, s[..n]);
      assert WideText(s)[..n] == WideText(s[..n]) && WideText(s)[n] == Wide(s[n]);
      WideFoldsChar(u, s[n]);
    }
  }

  /** A search typed in full-width characters is the same search. */
  lemma FullWidthIsTheSame(u: Locale, s: string)
    requires Ascii(s)
    ensures NormalizeValue(u, WideText(s)) == NormalizeValue(u, s)
  {
    WideFolds(u, s);
  }

  // ---------- Tempo ----------

  /** Words and excluded words see nothing of the fields. */
  lemma TextIsApart(u: Locale, p: Parsed, q: Parsed, sample: Sample)
    requires p.text == q.text && p.excluded == q.excluded && p.excludedTags == q.excludedTags
    ensures TextMatches(u, p, sample) <==> TextMatches(u, q, sample)
  {
    hide HasTag, Join;
  }

  lemma NegatedBpmIsIgnored(u: Locale, p: Parsed, min: Option<real>, max: Option<real>)
    requires Lawful(u) && Prints(u, min) && Prints(u, max) && (min.Some? || max.Some?)
    ensures ParseToken(u, p, "-" + ("bpm:" + Show(u, min) + "-" + Show(u, max))) == p
  {
    hide Lawful, SplitOnce, NormalizeField, Trim, Prints, ParseNumberRange, Show, Plain;
    var range := Show(u, min) + "-" + Show(u, max);
    var token := "bpm:" + Show(u, min) + "-" + Show(u, max);
    SplitToken(u, "bpm", range);
    assert "bpm" + ":" + range == token && ("-" + token)[1..] == token;
    BpmIsPlain(u, min, max);
    TrimPlain(range);
  }

  /** The tempo clause asks for a known tempo between its bounds, each of them included, in place of an earlier one. */
  lemma BpmNarrows(u: Locale, p: Parsed, min: Option<real>, max: Option<real>, sample: Sample)
    requires Lawful(u) && Prints(u, min) && Prints(u, max) && (min.Some? || max.Some?)
    requires min.Some? ==> min.value >= 0.0
    ensures var token := "bpm:" + Show(u, min) + "-" + Show(u, max);
            && (Matches(u, ParseToken(u, p, token), sample) <==>
                && Matches(u, p.(bpm := None), sample) && sample.bpm.Some?
                && (min.Some? ==> min.value <= sample.bpm.value) && (max.Some? ==> sample.bpm.value <= max.value))
            && ParseToken(u, p, "-" + token) == p
  {
    hide HasTag, PlaybackMatches, InstrumentMatches, KeyMatches, Lawful, Prints, Show, TextMatches, ParseToken;
    BpmParses(u, p, Bpm(min, max));
    NegatedBpmIsIgnored(u, p, min, max);
    TextIsApart(u, p.(bpm := Some(NumberRange(min, max))), p.(bpm := None), sample);
  }

  /** A single tempo asks for exactly that tempo. */
  lemma SingleBpmNarrows(u: Locale, p: Parsed, bpm: real, sample: Sample)
    requires Lawful(u) && ReadsBack(u, bpm) && bpm >= 0.0
    ensures Matches(u, ParseToken(u, p, "bpm:" + u.show(bpm)), sample) <==>
            Matches(u, p.(bpm := None), sample) && sample.bpm == Some(bpm)
  {
    hide HasTag, PlaybackMatches, InstrumentMatches, KeyMatches, Join, Lawful, SplitOnce, NormalizeField, Trim, Plain,
         TextMatches;
    var text := u.show(bpm);
    SplitToken(u, "bpm", text);
    assert "bpm" + ":" + text == "bpm:" + text;
    TrimPlain(text);
    NoSplit(text, '-');
    TextIsApart(u, ParseToken(u, p, "bpm:" + text), p.(bpm := None), sample);
  }

  // ---------- Playback type ----------

  /** The letters and digits that spell a label: lower case, without separators. */
  function Letters(s: string): string {
    if s == "" then ""
    else if s[|s| - 1] in "_- " then Letters(s[..|s| - 1])
    else Letters(s[..|s| - 1]) + [LowerAscii(s[|s| - 1])]
  }

  /** ASCII text whose only whitespace is the space. */
  predicate Simple(s: string) { Ascii(s) && forall i :: 0 <= i < |s| ==> IsSpace(s[i]) ==> s[i] == ' ' }

  lemma {:induction false} WithoutLower(s: string)
    requires Simple(s)
    ensures Without(Lower(s), "_- ") == Letters(s)
    decreases |s|
  {
    if s != "" {
      var n := |s| - 1;
      WithoutLower(s[..n]);
      assert Lower(s)[..n] == Lower(s[..n]) && Lower(s)[n] == LowerAscii(s[n]);
    }
  }

  lemma {:induction false} WithoutConcat(a: string, b: string, removed: string)
    ensures Without(a + b, removed) == Without(a, removed) + Without(b, removed)
    decreases |b|
  {
    if b == "" {
      assert a + b == a;
    } else {
      WithoutConcat(a, b[..|b| - 1], removed);
      assert (a + b)[..|a + b| - 1] == a + b[..|b| - 1];
    }
  }

  lemma {:induction false} WithoutTrimStart(s: string)
    requires Simple(s)
    ensures Without(TrimStart(s), "_- ") == Without(s, "_- ") && Simple(TrimStart(s))
    decreases |s|
  {
    if s != "" && IsSpace(s[0]) {
      WithoutTrimStart(s[1..]);
      assert s == " " + s[1..];
      WithoutConcat(" ", s[1..], "_- ");
      assert " "[..0] == "";
    }
  }

  lemma {:induction false} WithoutTrimEnd(s: string)
    requires Simple(s)
    ensures Without(TrimEnd(s), "_- ") == Without(s, "_- ")
    decreases |s|
  {
    if s != "" && IsSpace(s[|s| - 1]) { WithoutTrimEnd(s[..|s| - 1]); }
  }

  lemma SimpleLower(s: string)
    requires Simple(s)
    ensures Simple(Lower(s)) && Ascii(s)
  {
  }

  lemma TrimIsBoth(s: string)
    ensures Trim(s) == TrimEnd(TrimStart(s))
  {
  }

  /** How a label is written does not matter beyond its letters, and the three names of a one-shot mean the same. */
  lemma LabelIsItsLetters(u: Locale, s: string)
    requires Lawful(u) && Simple(s)
    ensures NormalizePlaybackLabel(u, s) ==
            if Letters(s) in ["one", "shot", "oneshot"] then "oneshot" else Letters(s)
  {
    hide Trim, FoldAll, Simple, Lawful, Letters, Without;
    SimpleLower(s);
    NormalizeAscii(u, s);
    TrimIsBoth(Lower(s));
    WithoutTrimStart(Lower(s));
    WithoutTrimEnd(TrimStart(Lower(s)));
    WithoutLower(s);
  }

  predicate IsLoop(s: string) { Letters(s) == "loop" }

  predicate IsOneShot(s: string) { Letters(s) == "one" || Letters(s) == "shot" || Letters(s) == "oneshot" }

  lemma {:induction false} LettersOfLowercase(s: string)
    requires forall i :: 0 <= i < |s| ==> 'a' <= s[i] <= 'z'
    ensures Letters(s) == s
    decreases |s|
  {
    if s != "" { LettersOfLowercase(s[..|s| - 1]); }
  }

  lemma {:induction false} LettersPush(a: string, separator: char, b: string)
    requires separator in "_- "
    ensures Letters(a + [separator] + b) == Letters(a) + Letters(b)
    decreases |b|
  {
    var s := a + [separator] + b;
    if b == "" {
      assert s[..|s| - 1] == a && s[|s| - 1] == separator;
    } else {
      LettersPush(a, separator, b[..|b| - 1]);
      assert s[..|s| - 1] == a + [separator] + b[..|b| - 1] && s[|s| - 1] == b[|b| - 1];
    }
  }

  /** The spellings in use; in any other mixture of cases they mean the same. */
  lemma Spellings()
    ensures IsLoop("loop") && IsOneShot("oneshot")
    ensures IsOneShot("one-shot") && IsOneShot("one shot") && IsOneShot("one_shot")
  {
    hide Letters;
    LettersOfLowercase("loop");
    LettersOfLowercase("one");
    LettersOfLowercase("shot");
    LettersOfLowercase("oneshot");
    LettersPush("one", '-', "shot");
    LettersPush("one", ' ', "shot");
    LettersPush("one", '_', "shot");
    assert "one" + ['-'] + "shot" == "one-shot" && "one" + [' '] + "shot" == "one shot" &&
           "one" + ['_'] + "shot" == "one_shot";
    assert "one" + "shot" == "oneshot";
  }

  lemma {:induction false} CaseDoesNotMatter(s: string, t: string)
    requires Lower(s) == Lower(t)
    ensures Letters(s) == Letters(t)
    decreases |s|
  {
    if s != "" {
      var n := |s| - 1;
      assert |t| == |s| && Lower(s)[n] == Lower(t)[n];
      assert Lower(s[..n]) == Lower(s)[..n] == Lower(t)[..n] == Lower(t[..n]);
      CaseDoesNotMatter(s[..n], t[..n]);
    }
  }

  /** Either the playback type or the sample type of the sample is of the kind. */
  predicate Plays(sample: Sample, kind: string -> bool) {
    kind(sample.playbackType) || (sample.sampleType.Some? && kind(sample.sampleType.value))
  }

  predicate SimpleLabels(sample: Sample) {
    Simple(sample.playbackType) && (sample.sampleType.Some? ==> Simple(sample.sampleType.value))
  }

  lemma {:induction false} LettersTrimStart(s: string)
    requires Simple(s)
    ensures Letters(TrimStart(s)) == Letters(s) && Simple(TrimStart(s))
    decreases |s|
  {
    if s != "" && IsSpace(s[0]) {
      LettersTrimStart(s[1..]);
      assert s == "" + [' '] + s[1..];
      LettersPush("", ' ', s[1..]);
    }
  }

  lemma {:induction false} LettersTrimEnd(s: string)
    requires Simple(s)
    ensures Letters(TrimEnd(s)) == Letters(s) && Simple(TrimEnd(s))
    decreases |s|
  {
    if s != "" && IsSpace(s[|s| - 1]) { LettersTrimEnd(s[..|s| - 1]); }
  }

  lemma TrimmedLetters(s: string)
    requires Simple(s)
    ensures Letters(Trim(s)) == Letters(s) && Simple(Trim(s))
  {
    LettersTrimStart(s);
    LettersTrimEnd(TrimStart(s));
  }

  /** The type clause asks for loops or one-shots, however they are spelled; any other value asks for nothing. */
  lemma TypeNarrows(u: Locale, p: Parsed, value: string, sample: Sample)
    requires Lawful(u) && Simple(value) && Trim(value) != "" && SimpleLabels(sample)
    ensures Matches(u, ParseToken(u, p, "type:" + value), sample) <==>
              && Matches(u, p.(playback := None), sample)
              && (IsLoop(value) ==> Plays(sample, IsLoop)) && (IsOneShot(value) ==> Plays(sample, IsOneShot))
    ensures ParseToken(u, p, "-type:" + value) == p
  {
    hide HasTag, InstrumentMatches, KeyMatches, Join, Lawful, SplitOnce, NormalizeField, Trim, NormalizePlaybackLabel,
         Simple, Letters, TextMatches, InRange;
    SplitToken(u, "type", value);
    assert "type" + ":" + value == "type:" + value && ("-type:" + value)[1..] == "type:" + value;
    TrimmedLetters(value);
    TextIsApart(u, ParseToken(u, p, "type:" + value), p.(playback := None), sample);
    LabelIsItsLetters(u, Trim(value));
    LabelIsItsLetters(u, sample.playbackType);
    if sample.sampleType.Some? { LabelIsItsLetters(u, sample.sampleType.value); }
  }

  // ---------- Keys ----------

  /** Semitones above C of the natural notes. */
  function Semitone(root: char): nat
    requires 'A' <= root <= 'G'
  {
    match root
    case 'C' => 0
    case 'D' => 2
    case 'E' => 4
    case 'F' => 5
    case 'G' => 7
    case 'A' => 9
    case _ => 11
  }

  datatype Accidental = Natural | Sharp | Flat

  function Sign(a: Accidental): string { match a case Natural => "" case Sharp => "#" case Flat => "b" }

  function Shift(a: Accidental): int { match a case Natural => 0 case Sharp => 1 case Flat => -1 }

  /** The spelling of a key: a note in either case, its accidental, and an optional m. */
  function Spelled(root: char, a: Accidental, minor: bool): string { [root] + Sign(a) + if minor then "m" else "" }

  /** The spellings that name a natural note are not read. */
  predicate Unread(root: char, a: Accidental) {
    (a.Sharp? && (root == 'E' || root == 'B')) || (a.Flat? && (root == 'C' || root == 'F'))
  }

  lemma SpelledIsTrim(low: char, a: Accidental, minor: bool)
    requires 'a' <= low <= 'g'
    ensures Trim(Spelled(low, a, minor)) == Spelled(low, a, minor)
  {
    TrimVisible(Spelled(low, a, minor));
  }

  /** What is read of a note and its accidental. */
  function NoteKey(root: char, a: Accidental): Option<string> {
    var key := match a case Natural => Some([root]) case Sharp => Some([root] + "#") case Flat => FlatKey(root);
    if key.Some? && key.value in KEYS then key else None
  }

  lemma NaturalIsItsPitch(root: char)
    requires 'A' <= root <= 'G'
    ensures [root] == KEYS[Semitone(root)]
  {
  }

  lemma SharpIsItsPitch(root: char)
    requires 'A' <= root <= 'G'
    ensures if Unread(root, Sharp) then [root] + "#" !in KEYS else [root] + "#" == KEYS[Semitone(root) + 1]
  {
    var name := [root] + "#";
    assert |name| == 2 && name[0] == root;
    assert forall i :: 0 <= i < 12 && |KEYS[i]| == 2 ==> KEYS[i][0] != 'E' && KEYS[i][0] != 'B';
    if !Unread(root, Sharp) {
      var key := KEYS[Semitone(root) + 1];
      assert |key| == 2 && key[0] == root && key[1] == '#';
    }
  }

  lemma NoteIsItsPitch(root: char, a: Accidental)
    requires 'A' <= root <= 'G'
    ensures NoteKey(root, a) == if Unread(root, a) then None else Some(KEYS[(Semitone(root) + Shift(a)) % 12])
  {
    match a
    case Natural => NaturalIsItsPitch(root);
    case Sharp => SharpIsItsPitch(root);
    case Flat =>
  }

  lemma NameIsRead(u: Locale, s: string, root: char, a: Accidental, name: string)
    requires var folded := NormalizeValue(u, s);
             folded != "" && name == if folded[|folded| - 1] == 'm' then folded[..|folded| - 1] else folded
    requires name != "" && AsciiUpper(name[0]) == root && name[1..] == Sign(a)
    ensures NormalizeKey(u, s) == NoteKey(root, a)
  {
    hide NormalizeValue, AsciiUpper, FlatKey;
    match a
    case Natural =>
      assert name[1..] == "";
      assert NormalizeKey(u, s) == NoteKey(root, a);
    case Sharp =>
      assert name[1..] == "#" != "";
      assert NormalizeKey(u, s) == NoteKey(root, a);
    case Flat =>
      assert name[1..] == "b" && "b"[0] != "#"[0];
      assert NormalizeKey(u, s) == NoteKey(root, a);
  }

  lemma SpelledIsRead(u: Locale, s: string, root: char, a: Accidental, minor: bool)
    requires 'A' <= root <= 'G' && NormalizeValue(u, s) == Spelled(LowerAscii(root), a, minor)
    ensures NormalizeKey(u, s) == NoteKey(root, a)
  {
    hide NormalizeValue;
    var low := LowerAscii(root);
    var folded := Spelled(low, a, minor);
    var name := if folded[|folded| - 1] == 'm' then folded[..|folded| - 1] else folded;
    assert name == [low] + Sign(a);
    assert name[0] == low && name[1..] == Sign(a) && AsciiUpper(low) == root;
    assert Sign(a) == "" || Sign(a) == "#" || Sign(a) == "b";
    NameIsRead(u, s, root, a, name);
  }

  /**
   A key is read as its pitch: the twelve names stand for the semitones from C up, a sharp is a semitone above its note
   and a flat a semitone below, and major and minor are not told apart. E#, B#, Cb and Fb are not read as keys.
   */
  lemma KeyIsItsPitch(u: Locale, root: char, upper: bool, a: Accidental, minor: bool)
    requires Lawful(u) && 'A' <= root <= 'G'
    ensures NormalizeKey(u, Spelled(if upper then root else LowerAscii(root), a, minor)) ==
            if Unread(root, a) then None else Some(KEYS[(Semitone(root) + Shift(a)) % 12])
  {
    hide Lawful, NormalizeKey, NormalizeValue, Trim, NoteKey;
    var s, folded := Spelled(if upper then root else LowerAscii(root), a, minor), Spelled(LowerAscii(root), a, minor);
    assert Lower(s) == folded;
    NormalizeAscii(u, s);
    SpelledIsTrim(LowerAscii(root), a, minor);
    SpelledIsRead(u, s, root, a, minor);
    NoteIsItsPitch(root, a);
  }

  /** The semitone, from 0 to 11, that a spelled key stands for. */
  function Pitch(root: char, a: Accidental): int
    requires 'A' <= root <= 'G'
  {
    (Semitone(root) + Shift(a)) % 12
  }

  lemma NamesAreDistinct(i: int, j: int)
    requires 0 <= i < 12 && 0 <= j < 12
    ensures KEYS[i] == KEYS[j] <==> i == j
  {
  }

  lemma KeyToken(u: Locale, p: Parsed, value: string)
    requires Lawful(u) && Trim(value) == value != ""
    ensures ParseToken(u, p, "key:" + value) == p.(key := NormalizeKey(u, value))
  {
    hide Lawful, SplitOnce, NormalizeField, Trim, NormalizeKey;
    SplitToken(u, "key", value);
    assert "key" + ":" + value == "key:" + value;
  }

  lemma SpelledIsVisible(root: char, upper: bool, a: Accidental, minor: bool)
    requires 'A' <= root <= 'G'
    ensures var s := Spelled(if upper then root else LowerAscii(root), a, minor); Trim(s) == s != ""
  {
    TrimVisible(Spelled(if upper then root else LowerAscii(root), a, minor));
  }

  /** The key clause asks for samples of the same pitch, however either key is spelled. */
  lemma KeyNarrows(u: Locale, p: Parsed, sample: Sample, root: char, upper: bool, a: Accidental, minor: bool,
                   root': char, upper': bool, a': Accidental, minor': bool)
    requires Lawful(u) && 'A' <= root <= 'G' && 'A' <= root' <= 'G' && !Unread(root, a)
    requires sample.musicalKey == Some(Spelled(if upper' then root' else LowerAscii(root'), a', minor'))
    ensures var token := "key:" + Spelled(if upper then root else LowerAscii(root), a, minor);
            Matches(u, ParseToken(u, p, token), sample) <==>
              Matches(u, p.(key := None), sample) && !Unread(root', a') && Pitch(root', a') == Pitch(root, a)
  {
    hide HasTag, PlaybackMatches, InstrumentMatches, Lawful, TextMatches, ParseToken, Spelled, Semitone, NormalizeKey,
         InRange, Unread;
    var value := Spelled(if upper then root else LowerAscii(root), a, minor);
    SpelledIsVisible(root, upper, a, minor);
    KeyToken(u, p, value);
    KeyIsItsPitch(u, root, upper, a, minor);
    KeyIsItsPitch(u, root', upper', a', minor');
    NamesAreDistinct(Pitch(root, a), Pitch(root', a'));
    TextIsApart(u, p.(key := NormalizeKey(u, value)), p.(key := None), sample);
  }

  // ---------- Instrument ----------

  /** The instrument clause asks for the same instrument, up to case and surrounding space. */
  lemma InstrumentNarrows(u: Locale, p: Parsed, value: string, sample: Sample)
    requires Lawful(u) && Ascii(value) && Trim(value) == value != "" && Ascii(sample.instrumentType)
    ensures Matches(u, ParseToken(u, p, "instrument:" + value), sample) <==>
            Matches(u, p.(instrument := None), sample) && Trim(Lower(sample.instrumentType)) == Trim(Lower(value))
  {
    hide HasTag, PlaybackMatches, KeyMatches, Lawful, SplitOnce, NormalizeField, Trim, NormalizeValue, TextMatches,
         InRange, Lower, Ascii;
    SplitToken(u, "instrument", value);
    assert "instrument" + ":" + value == "instrument:" + value;
    NormalizeAscii(u, value);
    NormalizeAscii(u, sample.instrumentType);
    TextIsApart(u, ParseToken(u, p, "instrument:" + value), p.(instrument := None), sample);
  }

  // ---------- Field names ----------

  /** The field a name stands for; the others are plain text. */
  function FieldOf(name: string): Option<string> {
    if name in ["type", "playback", "playbacktype", "sampletype"] then Some("type")
    else if name in ["instrument", "instrumenttype"] then Some("instrument")
    else if name in ["tag", "tags"] then Some("tag")
    else if name == "bpm" || name == "key" then Some(name)
    else None
  }

  /** A field means the same under each of its names. */
  lemma NamesMeanTheSame(u: Locale, p: Parsed, name: string, value: string)
    requires Lawful(u) && Lowercase(name) && FieldOf(name).Some? && Trim(value) != ""
    ensures ParseToken(u, p, name + ":" + value) == ParseToken(u, p, FieldOf(name).value + ":" + value)
  {
    hide Lawful, SplitOnce, NormalizeField, Trim, NormalizePlaybackType, NormalizeValue, NormalizeKey, ParseNumberRange,
         PushTag, PushText;
    var field := FieldOf(name).value;
    assert Lowercase(field);
    SplitToken(u, name, value);
    SplitToken(u, field, value);
  }

  lemma VisibleLower(name: string)
    requires Ascii(name) && forall i :: 0 <= i < |name| ==> !IsSpace(name[i])
    ensures Trim(Lower(name)) == Lower(name)
  {
    TrimVisible(Lower(name));
  }

  lemma {:induction false} WithoutDashes(s: string)
    requires forall i :: 0 <= i < |s| ==> !IsSpace(s[i])
    ensures Without(Lower(s), "_-") == Letters(s)
    decreases |s|
  {
    if s != "" {
      var n := |s| - 1;
      WithoutDashes(s[..n]);
      assert Lower(s)[..n] == Lower(s[..n]) && Lower(s)[n] == LowerAscii(s[n]);
      assert s[n] in "_- " <==> LowerAscii(s[n]) in "_-";
    }
  }

  /** A name may be written with capitals, dashes and underscores. */
  lemma NameIsItsLetters(u: Locale, name: string)
    requires Lawful(u) && Ascii(name) && forall i :: 0 <= i < |name| ==> !IsSpace(name[i])
    ensures NormalizeField(u, name) == Letters(name)
  {
    hide Trim, FoldAll, Lawful, Without;
    NormalizeAscii(u, name);
    VisibleLower(name);
    WithoutDashes(name);
  }

  /** Any other name makes the whole clause a word, and favourites are ignored. */
  lemma OtherNames(u: Locale, p: Parsed, name: string, value: string)
    requires Lawful(u) && Lowercase(name) && FieldOf(name).None? && Trim(value) != ""
    ensures ParseToken(u, p, name + ":" + value) ==
            if name in ["favorite", "favourite", "fav"] then p else PushText(u, p, false, name + ":" + value)
  {
    hide Lawful, SplitOnce, NormalizeField, Trim, NormalizePlaybackType, NormalizeValue, NormalizeKey, ParseNumberRange,
         PushTag, PushText;
    SplitToken(u, name, value);
  }

  /** A minus sign before a type, instrument, key or tempo clause makes it say nothing. */
  lemma NegatedFieldsSayNothing(u: Locale, p: Parsed, field: string, value: string)
    requires Lawful(u) && field in ["type", "instrument", "key", "bpm"] && Trim(value) != ""
    ensures ParseToken(u, p, "-" + (field + ":" + value)) == p
  {
    hide Lawful, SplitOnce, NormalizeField, Trim, NormalizePlaybackType, NormalizeValue, NormalizeKey, ParseNumberRange,
         PushTag, PushText;
    assert Lowercase(field);
    SplitToken(u, field, value);
    assert ("-" + (field + ":" + value))[1..] == field + ":" + value;
  }

  /** A key or tempo that cannot be read takes back an earlier one and asks for nothing itself. */
  lemma UnreadableTakesBack(u: Locale, p: Parsed, value: string)
    requires Lawful(u) && Trim(value) != ""
    ensures NormalizeKey(u, Trim(value)).None? ==> ParseToken(u, p, "key:" + value) == p.(key := None)
    ensures ParseNumberRange(u, Trim(value)).None? ==> ParseToken(u, p, "bpm:" + value) == p.(bpm := None)
  {
    hide Lawful, SplitOnce, NormalizeField, Trim, NormalizePlaybackType, NormalizeValue, NormalizeKey, ParseNumberRange,
         PushTag, PushText;
    SplitToken(u, "key", value);
    SplitToken(u, "bpm", value);
    assert "key" + ":" + value == "key:" + value && "bpm" + ":" + value == "bpm:" + value;
  }
}
