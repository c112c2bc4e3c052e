/** Trimming and joining text, as Rust's `trim` and `join(" ")` do. */
module Texts {
  /** The White_Space code points of Unicode, which is what Rust's `char::is_whitespace` tests. */
  predicate IsSpace(c: char) {
    || '\t' <= c <= '\r' || c == ' ' || c == '\U{0085}' || c == '\U{00A0}' || c == '\U{1680}'
    || '\U{2000}' <= c <= '\U{200A}' || c == '\U{2028}' || c == '\U{2029}' || c == '\U{202F}' || c == '\U{205F}'
    || c == '\U{3000}'
  }

  function TrimStart(s: string): string { if s != "" && IsSpace(s[0]) then TrimStart(s[1..]) else s }

  function TrimEnd(s: string): string {
    if s != "" && IsSpace(s[|s| - 1]) then TrimEnd(s[..|s| - 1]) else s
  }

  function Trim(s: string): string { TrimEnd(TrimStart(s)) }

  function Join(terms: seq<string>): string {
    if terms == [] then "" else if |terms| == 1 then terms[0]
    else Join(terms[..|terms| - 1]) + " " + terms[|terms| - 1]
  }

  // ---------- Joining ----------

  lemma JoinOne(term: string)
    ensures Join([term]) == term
  {}

  lemma JoinPush(terms: seq<string>, term: string)
    ensures Join(terms + [term]) == if terms == [] then term else Join(terms) + " " + term
  {}

  lemma Regroup(a: string, b: string, c: string)
    ensures a + (b + c) == a + b + c
  {
  }

  lemma JoinGrow(terms: seq<string>, more: string)
    requires terms != []
    ensures Join(terms[..|terms| - 1] + [terms[|terms| - 1] + more]) == Join(terms) + more
  {
    hide Join;
    var init, last := terms[..|terms| - 1], terms[|terms| - 1];
    assert terms == init + [last];
    JoinPush(init, last + more);
    JoinPush(init, last);
    if init != [] { Regroup(Join(init) + " ", last, more); }
  }

  // ---------- Trimming ----------

  lemma TrimVisible(s: string)
    requires s != "" ==> !IsSpace(s[0]) && !IsSpace(s[|s| - 1])
    ensures Trim(s) == s
  {
  }

  lemma {:induction false} TrimStartVisible(s: string)
    ensures var t := TrimStart(s); t != "" ==> !IsSpace(t[0])
    decreases |s|
  {
    if s != "" && IsSpace(s[0]) { TrimStartVisible(s[1..]); }
  }

  lemma {:induction false} TrimEndVisible(s: string)
    ensures var t := TrimEnd(s); t <= s && (t != "" ==> !IsSpace(t[|t| - 1]))
    decreases |s|
  {
    if s != "" && IsSpace(s[|s| - 1]) { TrimEndVisible(s[..|s| - 1]); }
  }

  /** What is left after trimming begins and ends visibly. */
  lemma {:induction false} TrimEndsVisible(s: string)
    ensures var t := Trim(s); t != "" ==> !IsSpace(t[0]) && !IsSpace(t[|t| - 1])
  {
    TrimStartVisible(s);
    TrimEndVisible(TrimStart(s));
  }

  lemma {:induction false} TrimStartKeeps(s: string, i: nat)
    requires i < |s| && !IsSpace(s[i])
    ensures var t := TrimStart(s); |t| >= |s| - i && t[|t| - (|s| - i)] == s[i]
    decreases |s|
  {
    if IsSpace(s[0]) { TrimStartKeeps(s[1..], i - 1); }
  }

  lemma {:induction false} TrimEndKeeps(s: string, i: nat)
    requires i < |s| && !IsSpace(s[i])
    ensures TrimEnd(s) != "" && TrimEnd(s) <= s
    decreases |s|
  {
    if IsSpace(s[|s| - 1]) { TrimEndKeeps(s[..|s| - 1], i); }
  }

  /** Visible characters survive trimming, the first one in its place. */
  lemma {:induction false} TrimKeeps(s: string, i: nat)
    requires i < |s| && !IsSpace(s[i])
    ensures Trim(s) != "" && (i == 0 ==> Trim(s)[0] == s[0])
  {
    TrimStartKeeps(s, i);
    var t := TrimStart(s);
    TrimEndKeeps(t, |t| - (|s| - i));
  }

  lemma {:induction false} AllSpace(s: string)
    requires forall k :: 0 <= k < |s| ==> IsSpace(s[k])
    ensures TrimStart(s) == ""
    decreases |s|
  {
    if s != "" { AllSpace(s[1..]); }
  }

  /** A text that trimming leaves something of has a visible character. */
  lemma {:induction false} NotBlank(s: string) returns (i: nat)
    requires Trim(s) != ""
    ensures i < |s| && !IsSpace(s[i])
  {
    i := 0;
    while i < |s| && IsSpace(s[i])
      invariant i <= |s| && forall k :: 0 <= k < i ==> IsSpace(s[k])
    {
      i := i + 1;
    }
    if i == |s| { AllSpace(s); }
  }
}
