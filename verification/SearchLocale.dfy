/** A locale that meets every law the search proofs use: ASCII lower-casing and decimal whole numbers. */
module SearchLocales {
  import opened Options
  import opened Texts
  import opened SearchTokens
  import opened SearchQueries
  import CollectionNames

  function Lowered(c: char): string { [LowerAscii(c)] }

  predicate IsDigit(c: char) { '0' <= c <= '9' }

  function Digits(n: nat): (s: string)
    ensures s != "" && forall i :: 0 <= i < |s| ==> IsDigit(s[i])
  {
    (if n < 10 then "" else Digits(n / 10)) + [('0' as int + n % 10) as char]
  }

  function DigitValue(c: char): nat
    requires IsDigit(c)
  {
    (c as int) - ('0' as int)
  }

  function Number(s: string): nat
    requires forall i :: 0 <= i < |s| ==> IsDigit(s[i])
  {
    if s == "" then 0 else Number(s[..|s| - 1]) * 10 + DigitValue(s[|s| - 1])
  }

  lemma {:induction false} DigitsReadBack(n: nat)
    ensures Number(Digits(n)) == n
  {
    var last := ('0' as int + n % 10) as char;
    if n < 10 {
      assert Digits(n) == [last];
      assert [last][..0] == "";
    } else {
      DigitsReadBack(n / 10);
      assert Digits(n)[..|Digits(n)| - 1] == Digits(n / 10);
    }
  }

  function ShowWhole(x: real): string {
    if x < 0.0 then "-" + Digits((-x).Floor) else Digits(x.Floor)
  }

  predicate AllDigits(s: string) { s != "" && forall i :: 0 <= i < |s| ==> IsDigit(s[i]) }

  function ReadWhole(s: string): Option<real> {
    if AllDigits(s) then Some(Number(s) as real)
    else if |s| > 1 && s[0] == '-' && AllDigits(s[1..]) then Some(-(Number(s[1..]) as real))
    else None
  }

  function Decimal(): Locale { Locale(Lowered, ShowWhole, ReadWhole, (term, targets) => term in targets) }

  lemma DigitsArePlain(n: nat)
    ensures var s := Digits(n); Printed(s) && '-' !in s && Printed("-" + s) && s[0] != '-'
  {
    hide Digits;
  }

  lemma DigitsRead(n: nat)
    ensures ReadWhole(Digits(n)) == Some(n as real)
    ensures ReadWhole("-" + Digits(n)) == Some(-(n as real))
  {
    hide Digits, Number;
    DigitsReadBack(n);
    assert ("-" + Digits(n))[1..] == Digits(n);
    assert !IsDigit(("-" + Digits(n))[0]);
  }

  lemma WholeNumbersReadBack(n: int)
    ensures ReadsBack(Decimal(), n as real)
  {
    hide Digits, ReadWhole, Printed;
    var size := if n < 0 then -n else n;
    assert (n as real).Floor == n && (-(n as real)).Floor == -n;
    DigitsArePlain(size);
    DigitsRead(size);
  }

  /** The laws can be met, for every request whose tempo bounds are whole numbers. */
  lemma LawsCanBeMet(r: Request)
    requires r.bpmMin.Some? ==> r.bpmMin.value == r.bpmMin.value.Floor as real
    requires r.bpmMax.Some? ==> r.bpmMax.value == r.bpmMax.value.Floor as real
    ensures Lawful(Decimal()) && BoundsPrint(Decimal(), r)
  {
    hide ReadsBack;
    if r.bpmMin.Some? { WholeNumbersReadBack(r.bpmMin.value.Floor); }
    if r.bpmMax.Some? { WholeNumbersReadBack(r.bpmMax.value.Floor); }
  }

  /** ASCII lower-casing also meets the law the collection names use. */
  lemma NamesCanBeLowered()
    ensures CollectionNames.Lowers(Lowered)
  {
    forall c | !IsSpace(c) ensures CollectionNames.IsWord(Lowered, Lowered(c)) {
      assert Lowered(c)[0] == if 'A' <= c <= 'Z' then (c as int + 32) as char else c;
    }
  }
}
