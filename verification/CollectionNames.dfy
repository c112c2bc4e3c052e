/** Normalised collection names: trimmed, whitespace runs collapsed to one space, lower-cased. */
module CollectionNames {
  import opened Options
  import opened Texts

  /** A word in normal form. */
  predicate IsWord(lower: char -> string, w: string) {
    w != "" && forall i :: 0 <= i < |w| ==> !IsSpace(w[i]) && lower(w[i]) == [w[i]]
  }

  /** What is used of lower-casing: a visible character becomes visible characters that are lower case already. */
  ghost predicate Lowers(lower: char -> string) {
    forall c :: !IsSpace(c) ==> IsWord(lower, lower(c))
  }

  ghost predicate AreWords(lower: char -> string, words: seq<string>) {
    forall i :: 0 <= i < |words| ==> IsWord(lower, words[i])
  }

  predicate EndsInSpace(s: string) { s == "" || IsSpace(s[|s| - 1]) }

  /** The maximal runs of visible characters, lower-cased. */
  function Words(lower: char -> string, s: string): (words: seq<string>)
    ensures !EndsInSpace(s) ==> words != []
  {
    if s == "" then []
    else
      var before, c := s[..|s| - 1], s[|s| - 1];
      var words := Words(lower, before);
      if IsSpace(c) then words
      else if EndsInSpace(before) then words + [lower(c)]
      else words[..|words| - 1] + [words[|words| - 1] + lower(c)]
  }

  function Normalized(lower: char -> string, name: string): Option<string> {
    var words := Words(lower, Trim(name));
    if words == [] then None else Some(Join(words))
  }

  lemma {:induction false} WordsAreWords(lower: char -> string, s: string)
    requires Lowers(lower)
    ensures AreWords(lower, Words(lower, s))
    decreases |s|
  {
    if s != "" {
      var before, c := s[..|s| - 1], s[|s| - 1];
      WordsAreWords(lower, before);
      if !IsSpace(c) {
        assert IsWord(lower, lower(c));
        if !EndsInSpace(before) {
          var w := Words(lower, before)[|Words(lower, before)| - 1];
          assert IsWord(lower, w);
          assert IsWord(lower, w + lower(c));
        }
      }
    }
  }

  // ---------- What the words of a name are ----------

  function LowerAll(lower: char -> string, w: string): string {
    if w == "" then "" else LowerAll(lower, w[..|w| - 1]) + lower(w[|w| - 1])
  }

  /** Text without whitespace is one word, its characters lower-cased. */
  lemma {:induction false} VisibleTextIsOneWord(lower: char -> string, w: string)
    requires w != "" && forall i :: 0 <= i < |w| ==> !IsSpace(w[i])
    ensures Words(lower, w) == [LowerAll(lower, w)]
    decreases |w|
  {
    var n := |w| - 1;
    if n == 0 {
      assert w[..0] == "" && LowerAll(lower, "") == "" && "" + lower(w[0]) == lower(w[0]);
      assert Words(lower, w) == [] + [lower(w[0])];
    } else {
      VisibleTextIsOneWord(lower, w[..n]);
    }
  }

  lemma OneMoreChar(lower: char -> string, s: string)
    requires s != ""
    ensures var words, last := Words(lower, s[..|s| - 1]), s[|s| - 1];
            && (!EndsInSpace(s[..|s| - 1]) ==> words != [])
            && Words(lower, s) == if IsSpace(last) then words
                                  else if EndsInSpace(s[..|s| - 1]) then words + [lower(last)]
                                  else words[..|words| - 1] + [words[|words| - 1] + lower(last)]
  {
  }

  lemma SameEnd(a: string, c: char, b: string)
    requires IsSpace(c)
    ensures EndsInSpace(a + [c] + b) <==> EndsInSpace(b)
  {
    if b != "" { assert (a + [c] + b)[|a| + |b|] == b[|b| - 1]; }
  }

  lemma NoWordsAfter(lower: char -> string, words: seq<string>)
    ensures words + Words(lower, "") == words
  {
  }

  lemma LastWordGrows(first: seq<string>, rest: seq<string>, more: string)
    requires rest != []
    ensures var all := first + rest;
            all[..|all| - 1] + [all[|all| - 1] + more] == first + (rest[..|rest| - 1] + [rest[|rest| - 1] + more])
  {
  }

  /** Whitespace separates words, whatever it is. */
  lemma {:induction false} SpaceSeparates(lower: char -> string, a: string, c: char, b: string)
    requires IsSpace(c)
    ensures Words(lower, a + [c] + b) == Words(lower, a) + Words(lower, b)
    decreases |b|
  {
    hide IsSpace, EndsInSpace, Words;
    var s := a + [c] + b;
    if b == "" {
      assert s[..|s| - 1] == a && s[|s| - 1] == c;
      OneMoreChar(lower, s);
      NoWordsAfter(lower, Words(lower, a));
    } else {
      var n := |b| - 1;
      SpaceSeparates(lower, a, c, b[..n]);
      assert s[..|s| - 1] == a + [c] + b[..n] && s[|s| - 1] == b[n];
      SameEnd(a, c, b[..n]);
      OneMoreChar(lower, s);
      OneMoreChar(lower, b);
      if !EndsInSpace(b[..n]) {
        LastWordGrows(Words(lower, a), Words(lower, b[..n]), lower(b[n]));
      } else {
        assert Words(lower, a) + Words(lower, b[..n]) + [lower(b[n])] ==
               Words(lower, a) + (Words(lower, b[..n]) + [lower(b[n])]);
      }
    }
  }

  lemma NoWords(lower: char -> string, words: seq<string>)
    ensures Words(lower, "") + words == words
  {
  }

  lemma {:induction false} LeadingSpace(lower: char -> string, s: string)
    ensures Words(lower, TrimStart(s)) == Words(lower, s)
    decreases |s|
  {
    hide IsSpace, Words;
    if s != "" && IsSpace(s[0]) {
      LeadingSpace(lower, s[1..]);
      assert s == "" + [s[0]] + s[1..];
      SpaceSeparates(lower, "", s[0], s[1..]);
      NoWords(lower, Words(lower, s[1..]));
    }
  }

  lemma {:induction false} TrailingSpace(lower: char -> string, s: string)
    ensures Words(lower, TrimEnd(s)) == Words(lower, s)
    decreases |s|
  {
    if s != "" && IsSpace(s[|s| - 1]) { TrailingSpace(lower, s[..|s| - 1]); }
  }

  /** The normal form of a name is its words joined by single spaces; spaces around it do not matter. */
  lemma NormalFormIsTheWords(lower: char -> string, name: string)
    ensures Normalized(lower, name) == if Words(lower, name) == [] then None else Some(Join(Words(lower, name)))
  {
    LeadingSpace(lower, name);
    TrailingSpace(lower, TrimStart(name));
  }

  // ---------- The loop ----------

  lemma {:induction false} JoinOfWords(lower: char -> string, words: seq<string>)
    requires AreWords(lower, words) && words != []
    ensures Join(words) != "" && !IsSpace(Join(words)[0]) && !IsSpace(Join(words)[|Join(words)| - 1])
    decreases |words|
  {
    var n := |words| - 1;
    assert IsWord(lower, words[n]);
    if n > 0 {
      assert AreWords(lower, words[..n]) by {
        forall i | 0 <= i < n ensures IsWord(lower, words[..n][i]) { assert IsWord(lower, words[i]); }
      }
      JoinOfWords(lower, words[..n]);
    }
  }

  lemma {:induction false} WordsNonEmpty(lower: char -> string, s: string)
    requires s != "" && !IsSpace(s[0])
    ensures Words(lower, s) != []
    decreases |s|
  {
    if |s| > 1 { WordsNonEmpty(lower, s[..|s| - 1]); }
  }

  lemma WordsStep(lower: char -> string, s: string, i: nat)
    requires i < |s| && !IsSpace(s[0])
    ensures var words := Words(lower, s[..i]);
            && (i > 0 ==> words != [])
            && (i == 0 ==> words == [])
            && Words(lower, s[..i + 1]) ==
               if IsSpace(s[i]) then words else if i == 0 || IsSpace(s[i - 1]) then words + [lower(s[i])]
                                           else words[..|words| - 1] + [words[|words| - 1] + lower(s[i])]
  {
    assert s[..i + 1][..i] == s[..i];
    if i > 0 { WordsNonEmpty(lower, s[..i]); }
  }

  lemma NormalizeStep(lower: char -> string, s: string, i: nat)
    requires i < |s| && !IsSpace(s[0])
    ensures var before, words := Join(Words(lower, s[..i])), Words(lower, s[..i + 1]);
            if IsSpace(s[i]) then Join(words) == before
            else if i == 0 then Join(words) == lower(s[i])
            else if IsSpace(s[i - 1]) then Join(words) == before + " " + lower(s[i])
            else Join(words) == before + lower(s[i])
  {
    hide Words, Join;
    WordsStep(lower, s, i);
    var words := Words(lower, s[..i]);
    if !IsSpace(s[i]) {
      if i == 0 || IsSpace(s[i - 1]) { JoinPush(words, lower(s[i])); } else { JoinGrow(words, lower(s[i])); }
    }
  }

  lemma FinalTrim(lower: char -> string, trimmed: string)
    requires Lowers(lower) && (trimmed != "" ==> !IsSpace(trimmed[0]) && !IsSpace(trimmed[|trimmed| - 1]))
    ensures var words := Words(lower, trimmed);
            if trimmed == "" then words == [] && Trim("") == ""
            else words != [] && Join(words) != "" && Trim(Join(words)) == Join(words)
  {
    if trimmed != "" {
      WordsAreWords(lower, trimmed);
      WordsNonEmpty(lower, trimmed);
      JoinOfWords(lower, Words(lower, trimmed));
      TrimVisible(Join(Words(lower, trimmed)));
    }
  }

  /** The loop of `normalize_collection_name`: its result is the words of the name joined by single spaces. */
  method NormalizeName(lower: char -> string, name: string) returns (result: Option<string>)
    requires Lowers(lower)
    ensures result == Normalized(lower, name)
  {
    hide Trim, Lowers, Words, Join;
    var trimmed := Trim(name);
    TrimEndsVisible(name);
    var normalized, previousWasSpace := "", false;
    for i := 0 to |trimmed|
      invariant i > 0 ==> previousWasSpace == IsSpace(trimmed[i - 1])
      invariant i == 0 ==> !previousWasSpace && normalized == ""
      invariant i > 0 ==> normalized == Join(Words(lower, trimmed[..i])) + if previousWasSpace then " " else ""
    {
      var ch := trimmed[i];
      NormalizeStep(lower, trimmed, i);
      if IsSpace(ch) {
        if !previousWasSpace {
          normalized := normalized + " ";
          previousWasSpace := true;
        }
        continue;
      }
      normalized := normalized + lower(ch);
      previousWasSpace := false;
    }
    assert trimmed[..|trimmed|] == trimmed;
    FinalTrim(lower, trimmed);
    if trimmed != "" { assert normalized == Join(Words(lower, trimmed)); }
    normalized := Trim(normalized);
    if normalized == "" { return None; }
    result := Some(normalized);
  }

  // ---------- Normalising twice ----------

  lemma {:induction false} WordsOfWord(lower: char -> string, before: string, w: string)
    requires IsWord(lower, w) && EndsInSpace(before)
    ensures Words(lower, before + w) == Words(lower, before) + [w]
    decreases |w|
  {
    var n := |w| - 1;
    assert (before + w)[..|before + w| - 1] == before + w[..n];
    assert w == w[..n] + [w[n]] && (before + w)[|before + w| - 1] == w[n];
    if n == 0 {
      assert before + w[..n] == before;
      assert w == lower(w[n]);
    } else {
      assert IsWord(lower, w[..n]);
      WordsOfWord(lower, before, w[..n]);
      assert (before + w[..n])[|before + w[..n]| - 1] == w[n - 1];
      assert Words(lower, before + w[..n])[..|Words(lower, before)|] == Words(lower, before);
    }
  }

  lemma {:induction false} WordsOfJoin(lower: char -> string, words: seq<string>)
    requires AreWords(lower, words)
    ensures Words(lower, Join(words)) == words
    decreases |words|
  {
    if words != [] {
      var n := |words| - 1;
      assert IsWord(lower, words[n]) && words == words[..n] + [words[n]];
      if n == 0 {
        assert "" + words[0] == words[0];
        WordsOfWord(lower, "", words[0]);
      } else {
        assert AreWords(lower, words[..n]) by {
          forall i | 0 <= i < n ensures IsWord(lower, words[..n][i]) { assert IsWord(lower, words[i]); }
        }
        WordsOfJoin(lower, words[..n]);
        var before := Join(words[..n]) + " ";
        assert before[..|before| - 1] == Join(words[..n]);
        WordsOfWord(lower, before, words[n]);
      }
    }
  }

  /** Normalising is idempotent: a stored name finds itself again. */
  lemma NormalizedTwice(lower: char -> string, name: string)
    requires Lowers(lower) && Normalized(lower, name).Some?
    ensures Normalized(lower, Normalized(lower, name).value) == Normalized(lower, name)
  {
    var words := Words(lower, Trim(name));
    WordsAreWords(lower, Trim(name));
    JoinOfWords(lower, words);
    TrimVisible(Join(words));
    WordsOfJoin(lower, words);
  }
}
