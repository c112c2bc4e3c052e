/**
 The discrete Fourier transform over exact complex numbers: finite sums, roots of unity known only by
 their algebraic laws, the transform itself, decimation in time, inversion and correlation.
 */
module Dft {
  import opened ComplexNumbers

  // ---------- Finite sums ----------

  function Sum(n: nat, f: int -> Complex): Complex {
    if n == 0 then ZERO else Add(Sum(n - 1, f), f(n - 1))
  }

  lemma {:induction false} SumCongruence(n: nat, f: int -> Complex, g: int -> Complex)
    requires forall i :: 0 <= i < n ==> f(i) == g(i)
    ensures Sum(n, f) == Sum(n, g)
  {
    if n > 0 { SumCongruence(n - 1, f, g); }
  }

  lemma {:induction false} SumAdd(n: nat, f: int -> Complex, g: int -> Complex, h: int -> Complex)
    requires forall i :: 0 <= i < n ==> h(i) == Add(f(i), g(i))
    ensures Sum(n, h) == Add(Sum(n, f), Sum(n, g))
  {
    if n > 0 { SumAdd(n - 1, f, g, h); }
  }

  lemma {:induction false} SumMul(n: nat, c: Complex, f: int -> Complex, g: int -> Complex)
    requires forall i :: 0 <= i < n ==> g(i) == Mul(c, f(i))
    ensures Sum(n, g) == Mul(c, Sum(n, f))
  {
    if n > 0 {
      SumMul(n - 1, c, f, g);
      MulDistributes(c, Sum(n - 1, f), f(n - 1));
    }
  }

  lemma {:induction false} SumConj(n: nat, f: int -> Complex, g: int -> Complex)
    requires forall i :: 0 <= i < n ==> g(i) == Conj(f(i))
    ensures Sum(n, g) == Conj(Sum(n, f))
  {
    if n > 0 { SumConj(n - 1, f, g); }
  }

  lemma ZeroSum()
    ensures Add(ZERO, ZERO) == ZERO
  {}

  lemma AddShuffle(a: Complex, b: Complex, c: Complex, d: Complex)
    ensures Add(Add(Add(a, b), c), d) == Add(Add(a, c), Add(b, d))
  {}

  lemma TwoMoreTerms(m: nat, f: int -> Complex)
    ensures Sum(2 * (m + 1), f) == Add(Add(Sum(2 * m, f), f(2 * m)), f(2 * m + 1))
  {
    assert Sum(2 * m + 1, f) == Add(Sum(2 * m, f), f(2 * m));
  }

  /** A sum of 2m terms is the sum of its even terms plus the sum of its odd terms. */
  lemma {:induction false} SumEvenOdd(m: nat, f: int -> Complex, even: int -> Complex, odd: int -> Complex)
    requires forall i :: 0 <= i < m ==> even(i) == f(2 * i)
    requires forall i :: 0 <= i < m ==> odd(i) == f(2 * i + 1)
    ensures Sum(2 * m, f) == Add(Sum(m, even), Sum(m, odd))
  {
    hide Add;
    ZeroSum();
    if m > 0 {
      SumEvenOdd(m - 1, f, even, odd);
      TwoMoreTerms(m - 1, f);
      AddShuffle(Sum(m - 1, even), Sum(m - 1, odd), even(m - 1), odd(m - 1));
      assert even(m - 1) == f(2 * (m - 1)) && odd(m - 1) == f(2 * (m - 1) + 1);
    }
  }

  lemma {:induction false} SumConcat(a: nat, b: nat, f: int -> Complex, g: int -> Complex)
    requires forall i :: 0 <= i < b ==> g(i) == f(a + i)
    ensures Sum(a + b, f) == Add(Sum(a, f), Sum(b, g))
  {
    if b > 0 {
      SumConcat(a, b - 1, f, g);
      assert g(b - 1) == f(a + (b - 1));
    }
  }

  lemma {:induction false} SumZero(n: nat, f: int -> Complex)
    requires forall i :: 0 <= i < n ==> f(i) == ZERO
    ensures Sum(n, f) == ZERO
  {
    if n > 0 { SumZero(n - 1, f); }
  }

  lemma {:induction false} SumSingle(n: nat, k: nat, f: int -> Complex)
    requires k < n
    requires forall i :: 0 <= i < n && i != k ==> f(i) == ZERO
    ensures Sum(n, f) == f(k)
  {
    if k == n - 1 {
      SumZero(n - 1, f);
    } else {
      SumSingle(n - 1, k, f);
    }
  }

  function Row(n: nat, f: (int, int) -> Complex): int -> Complex { i => Sum(n, j => f(i, j)) }

  function Column(n: nat, f: (int, int) -> Complex): int -> Complex { j => Sum(n, i => f(i, j)) }

  /** Fubini for finite sums. */
  lemma {:induction false} SumSwap(n: nat, m: nat, f: (int, int) -> Complex)
    ensures Sum(n, Row(m, f)) == Sum(m, Column(n, f))
  {
    if n == 0 {
      SumZero(m, Column(0, f));
    } else {
      SumSwap(n - 1, m, f);
      var last := j => f(n - 1, j);
      forall j | 0 <= j < m
        ensures Column(n, f)(j) == Add(Column(n - 1, f)(j), last(j))
      {
        var g := i => f(i, j);
        assert Column(n, f)(j) == Sum(n, g);
        assert Column(n - 1, f)(j) == Sum(n - 1, g);
      }
      SumAdd(m, Column(n - 1, f), last, Column(n, f));
      assert Row(m, f)(n - 1) == Sum(m, last);
    }
  }

  lemma RowIsSum(n: nat, f: (int, int) -> Complex, k: int, row: int -> Complex)
    requires forall j :: 0 <= j < n ==> row(j) == f(k, j)
    ensures Row(n, f)(k) == Sum(n, row)
  {}

  lemma ColumnIsSum(n: nat, f: (int, int) -> Complex, j: int, col: int -> Complex)
    requires forall k :: 0 <= k < n ==> col(k) == f(k, j)
    ensures Column(n, f)(j) == Sum(n, col)
  {}

  // ---------- Integer powers on the unit circle ----------

  function Power(z: Complex, e: int): Complex
    decreases if e < 0 then -e else e
  {
    if e == 0 then ONE
    else if e > 0 then Mul(z, Power(z, e - 1))
    else Mul(Conj(z), Power(z, e + 1))
  }

  lemma ConjCancels(z: Complex, a: Complex)
    requires OnUnitCircle(z)
    ensures Mul(z, Mul(Conj(z), a)) == a
    ensures Mul(Conj(z), Mul(z, a)) == a
  {
    MulAssoc(z, Conj(z), a);
    MulAssoc(Conj(z), z, a);
    assert Mul(z, Conj(z)) == ONE && Mul(Conj(z), z) == ONE;
  }

  lemma PowerUp(z: Complex, e: int)
    requires OnUnitCircle(z)
    ensures Power(z, e + 1) == Mul(z, Power(z, e))
    ensures Power(z, e) == Mul(Conj(z), Power(z, e + 1))
  {
    if e < 0 {
      ConjCancels(z, Power(z, e + 1));
    } else {
      ConjCancels(z, Power(z, e));
    }
  }

  lemma {:induction false} PowerAdd(z: Complex, a: int, b: int)
    requires OnUnitCircle(z)
    ensures Power(z, a + b) == Mul(Power(z, a), Power(z, b))
    decreases if a < 0 then -a else a
  {
    if a > 0 {
      PowerAdd(z, a - 1, b);
      PowerUp(z, a - 1 + b);
      MulAssoc(z, Power(z, a - 1), Power(z, b));
    } else if a < 0 {
      PowerAdd(z, a + 1, b);
      PowerUp(z, a + b);
      MulAssoc(Conj(z), Power(z, a + 1), Power(z, b));
    }
  }

  lemma {:induction false} PowerConj(z: Complex, e: int)
    ensures Conj(Power(z, e)) == Power(z, -e)
    decreases if e < 0 then -e else e
  {
    if e > 0 {
      PowerConj(z, e - 1);
      MulConj(z, Power(z, e - 1));
    } else if e < 0 {
      PowerConj(z, e + 1);
      MulConj(Conj(z), Power(z, e + 1));
    }
  }

  lemma {:induction false} PowerSquare(z: Complex, e: int)
    ensures Power(Mul(z, z), e) == Power(z, 2 * e)
    decreases if e < 0 then -e else e
  {
    if e > 0 {
      PowerSquare(z, e - 1);
      assert Power(z, 2 * e) == Mul(z, Mul(z, Power(z, 2 * (e - 1))));
      MulAssoc(z, z, Power(z, 2 * (e - 1)));
    } else if e < 0 {
      PowerSquare(z, e + 1);
      assert Power(z, 2 * e) == Mul(Conj(z), Mul(Conj(z), Power(z, 2 * (e + 1))));
      MulAssoc(Conj(z), Conj(z), Power(z, 2 * (e + 1)));
      MulConj(z, z);
    }
  }

  lemma {:induction false} PowerOfOne(z: Complex, n: int, j: int)
    requires OnUnitCircle(z) && Power(z, n) == ONE
    ensures Power(z, j * n) == ONE
    decreases if j < 0 then -j else j
  {
    hide Mul, OnUnitCircle;
    if j > 0 {
      PowerOfOne(z, n, j - 1);
      assert j * n == n + (j - 1) * n;
      PowerAdd(z, n, (j - 1) * n);
      MulUnits(ONE);
    } else if j < 0 {
      PowerOfOne(z, n, j + 1);
      assert j * n == -n + (j + 1) * n;
      PowerConj(z, n);
      PowerAdd(z, -n, (j + 1) * n);
      MulUnits(ONE);
    }
  }

  // ---------- Roots of unity ----------

  predicate IsPow2(n: nat) { n == 1 || (n > 1 && n % 2 == 0 && IsPow2(n / 2)) }

  predicate RootLaw(w: nat -> Complex, n: nat) {
    IsPow2(n) ==> OnUnitCircle(w(n)) && Mul(w(2 * n), w(2 * n)) == w(n)
  }

  /**
   What is assumed of the table n -> (cos(-2*pi/n), sin(-2*pi/n)) at powers of two: unit modulus,
   the half-turn root is -1, and the root of twice the order squares to the root.
   */
  ghost predicate IsRootTable(w: nat -> Complex) {
    && w(1) == ONE
    && w(2) == Neg(ONE)
    && forall n: nat :: RootLaw(w, n)
  }

  lemma RootDouble(w: nat -> Complex, n: nat, e: int)
    requires IsRootTable(w) && IsPow2(n)
    ensures IsPow2(2 * n) && OnUnitCircle(w(n)) && OnUnitCircle(w(2 * n))
    ensures Power(w(2 * n), 2 * e) == Power(w(n), e)
  {
    hide Mul, OnUnitCircle;
    assert IsPow2(2 * n);
    assert RootLaw(w, n) && RootLaw(w, 2 * n);
    PowerSquare(w(2 * n), e);
  }

  lemma FirstTurns(w: nat -> Complex)
    requires IsRootTable(w)
    ensures Power(w(2), 1) == Neg(ONE) && Power(w(1), 1) == ONE
  {
    hide Mul, RootLaw;
    assert Power(w(2), 1) == Mul(w(2), Power(w(2), 0));
    assert Power(w(1), 1) == Mul(w(1), Power(w(1), 0));
    MulUnits(w(1));
    MulUnits(w(2));
  }

  lemma TwoHalfTurns(z: Complex, m: nat)
    requires OnUnitCircle(z) && Power(z, m) == Neg(ONE)
    ensures Power(z, 2 * m) == ONE
  {
    hide Power, Mul, OnUnitCircle;
    PowerAdd(z, m, m);
    MulUnits(Neg(ONE));
  }

  lemma TurnStep(w: nat -> Complex, m: nat)
    requires IsRootTable(w) && IsPow2(m) && Power(w(2 * m), m) == Neg(ONE)
    ensures Power(w(2 * (2 * m)), 2 * m) == Neg(ONE) && Power(w(2 * m), 2 * m) == ONE
  {
    hide *;
    RootDouble(w, m, 0);
    RootDouble(w, 2 * m, m);
    TwoHalfTurns(w(2 * m), m);
  }

  /** Half of the order is a half turn, the whole order a full turn. */
  lemma {:induction false} RootTurns(w: nat -> Complex, n: nat)
    requires IsRootTable(w) && IsPow2(n)
    ensures Power(w(2 * n), n) == Neg(ONE)
    ensures Power(w(n), n) == ONE
  {
    hide Power, Mul, OnUnitCircle, IsRootTable;
    if n == 1 {
      FirstTurns(w);
    } else {
      RootTurns(w, n / 2);
      assert n == 2 * (n / 2);
      TurnStep(w, n / 2);
    }
  }

  lemma RootPeriod(w: nat -> Complex, n: nat, e: int, j: int)
    requires IsRootTable(w) && IsPow2(n)
    ensures Power(w(n), e + j * n) == Power(w(n), e)
    ensures Power(w(n), j * n) == ONE
  {
    hide Power, Mul, OnUnitCircle;
    RootDouble(w, n, 0);
    RootTurns(w, n);
    PowerOfOne(w(n), n, j);
    PowerAdd(w(n), e, j * n);
    MulUnits(Power(w(n), e));
  }

  lemma RootHalfTurn(w: nat -> Complex, n: nat, e: int)
    requires IsRootTable(w) && IsPow2(n)
    ensures Power(w(2 * n), e + n) == Neg(Power(w(2 * n), e))
  {
    hide Power, Mul, OnUnitCircle;
    RootDouble(w, n, 0);
    RootTurns(w, n);
    PowerAdd(w(2 * n), e, n);
    MulUnits(Power(w(2 * n), e));
  }

  /** The root of unity w(n)^(a*b). */
  function Root(w: nat -> Complex, n: nat, a: int, b: int): Complex { Power(w(n), a * b) }

  function Character(w: nat -> Complex, n: nat, d: int): int -> Complex { k => Root(w, n, k, d) }

  predicate Divides(n: nat, d: int) { n > 0 && d % n == 0 }

  lemma FirstOrder(w: nat -> Complex, d: int)
    ensures Sum(1, Character(w, 1, d)) == ONE
  {}

  lemma CharacterAt(w: nat -> Complex, n: nat, d: int, k: int)
    ensures Character(w, n, d)(k) == Power(w(n), k * d)
  {
    hide Power;
  }

  lemma OddMultiple(m: nat, k: int, d: int)
    requires d % 2 == 1
    ensures (m + k) * d == (k * d + (d / 2) * (2 * m)) + m
  {
    assert d == 2 * (d / 2) + 1;
    assert m * d == (d / 2) * (2 * m) + m;
    assert (m + k) * d == m * d + k * d;
  }

  lemma HalfShift(w: nat -> Complex, m: nat, k: int, d: int)
    requires IsRootTable(w) && IsPow2(m) && d % 2 == 1
    ensures Character(w, 2 * m, d)(m + k) == Neg(Character(w, 2 * m, d)(k))
  {
    hide *;
    RootDouble(w, m, 0);
    OddMultiple(m, k, d);
    CharacterAt(w, 2 * m, d, m + k);
    CharacterAt(w, 2 * m, d, k);
    RootHalfTurn(w, m, k * d + (d / 2) * (2 * m));
    RootPeriod(w, 2 * m, k * d, d / 2);
  }

  /** At an odd frequency the two halves of the circle cancel. */
  lemma OddFrequency(w: nat -> Complex, m: nat, d: int)
    requires IsRootTable(w) && IsPow2(m) && d % 2 == 1
    ensures Sum(2 * m, Character(w, 2 * m, d)) == ZERO
  {
    hide Mul, IsPow2, IsRootTable, Character;
    var f := Character(w, 2 * m, d);
    var upper := k => f(m + k);
    SumConcat(m, m, f, upper);
    forall k | 0 <= k < m ensures upper(k) == Mul(Neg(ONE), f(k)) {
      HalfShift(w, m, k, d);
      MulUnits(f(k));
    }
    SumMul(m, Neg(ONE), f, upper);
    MulUnits(Sum(m, f));
  }

  lemma EvenExponents(k: int, m: int, h: int)
    ensures k * (2 * h) == 2 * (k * h)
    ensures (m + k) * (2 * h) == 2 * ((m + k) * h)
    ensures (m + k) * h == k * h + h * m
  {}

  lemma EvenTerm(w: nat -> Complex, m: nat, h: int, k: int)
    requires IsRootTable(w) && IsPow2(m)
    ensures Character(w, 2 * m, 2 * h)(k) == Character(w, m, h)(k)
    ensures Character(w, 2 * m, 2 * h)(m + k) == Character(w, m, h)(k)
  {
    hide Power, Mul, OnUnitCircle, IsPow2;
    RootDouble(w, m, k * h);
    RootDouble(w, m, (m + k) * h);
    RootPeriod(w, m, k * h, h);
    EvenExponents(k, m, h);
  }

  lemma EvenDivides(h: int, m: nat)
    requires m > 0
    ensures Divides(2 * m, 2 * h) <==> Divides(m, h)
  {}

  /** At an even frequency both halves of the circle repeat the circle of half the order. */
  lemma EvenFrequency(w: nat -> Complex, m: nat, h: int)
    requires IsRootTable(w) && IsPow2(m) && m > 0
    requires Sum(m, Character(w, m, h)) == if Divides(m, h) then Real(m as real) else ZERO
    ensures Sum(2 * m, Character(w, 2 * m, 2 * h)) == if Divides(2 * m, 2 * h) then Real((2 * m) as real) else ZERO
  {
    hide Mul, IsPow2, IsRootTable, Divides, Character;
    var f := Character(w, 2 * m, 2 * h);
    var g := Character(w, m, h);
    var upper := k => f(m + k);
    SumConcat(m, m, f, upper);
    forall k | 0 <= k < m ensures f(k) == g(k) && upper(k) == g(k) {
      EvenTerm(w, m, h, k);
    }
    SumCongruence(m, f, g);
    SumCongruence(m, upper, g);
    EvenDivides(h, m);
  }

  lemma OddRemainder(m: nat, d: int)
    requires m > 0 && d % 2 == 1
    ensures !Divides(2 * m, d)
  {
    var q := d / (2 * m);
    assert d == (2 * m) * q + d % (2 * m);
    assert (2 * m) * q == 2 * (m * q);
  }

  /** Orthogonality of the characters: the powers of w(n)^d sum to n when n divides d, else to zero. */
  lemma {:induction false} Orthogonality(w: nat -> Complex, n: nat, d: int)
    requires IsRootTable(w) && IsPow2(n)
    ensures Sum(n, Character(w, n, d)) == if Divides(n, d) then Real(n as real) else ZERO
  {
    hide Power, Mul;
    if n == 1 {
      FirstOrder(w, d);
    } else {
      assert n == 2 * (n / 2);
      if d % 2 == 0 {
        Orthogonality(w, n / 2, d / 2);
        EvenFrequency(w, n / 2, d / 2);
      } else {
        OddFrequency(w, n / 2, d);
        OddRemainder(n / 2, d);
      }
    }
  }

  lemma MulSign(m: nat, d: int)
    ensures d >= 1 ==> m * d >= m
    ensures d >= 0 ==> m * d >= 0
    ensures d <= 0 ==> m * d <= 0
  {}

  // ---------- The transform ----------

  /** A finite signal, zero outside its samples. */
  function At(x: seq<Complex>, i: int): Complex { if 0 <= i < |x| then x[i] else ZERO }

  function Term(w: nat -> Complex, x: seq<Complex>, r: int, s: int, m: nat, k: int): int -> Complex {
    j => Mul(At(x, r + s * j), Power(w(m), j * k))
  }

  /** Bin k of the m-point transform of the samples r, r+s, r+2s, ... of x. */
  function Bin(w: nat -> Complex, x: seq<Complex>, r: int, s: int, m: nat, k: int): Complex {
    Sum(m, Term(w, x, r, s, m, k))
  }

  /** The unnormalised discrete Fourier transform: bin k is the sum of x[j] * w(n)^(j*k). */
  function Transform(w: nat -> Complex, x: seq<Complex>): seq<Complex> {
    seq(|x|, k => Bin(w, x, 0, 1, |x|, k))
  }

  lemma EvenSample(w: nat -> Complex, x: seq<Complex>, r: int, s: int, m: nat, k: int, j: int)
    requires IsRootTable(w) && IsPow2(m)
    ensures Term(w, x, r, s, 2 * m, k)(2 * j) == Term(w, x, r, 2 * s, m, k)(j)
  {
    hide Power, Mul, OnUnitCircle, IsPow2;
    RootDouble(w, m, j * k);
    assert (2 * j) * k == 2 * (j * k) && s * (2 * j) == (2 * s) * j;
  }

  lemma OddSample(w: nat -> Complex, x: seq<Complex>, r: int, s: int, m: nat, k: int, j: int)
    requires IsRootTable(w) && IsPow2(m)
    ensures Term(w, x, r, s, 2 * m, k)(2 * j + 1) == Mul(Power(w(2 * m), k), Term(w, x, r + s, 2 * s, m, k)(j))
  {
    hide Power, Mul, OnUnitCircle, IsPow2;
    var a, p, q := At(x, r + s * (2 * j + 1)), Power(w(2 * m), k), Power(w(m), j * k);
    assert s * (2 * j + 1) == s + (2 * s) * j;
    RootDouble(w, m, j * k);
    assert (2 * j + 1) * k == k + 2 * (j * k);
    PowerAdd(w(2 * m), k, 2 * (j * k));
    MulAssoc(a, p, q);
    MulComm(a, p);
    MulAssoc(p, a, q);
  }

  /** Decimation in time: the transform of 2m samples from the transforms of its even and odd samples. */
  lemma Decimation(w: nat -> Complex, x: seq<Complex>, r: int, s: int, m: nat, k: int)
    requires IsRootTable(w) && IsPow2(m)
    ensures Bin(w, x, r, s, 2 * m, k) ==
            Add(Bin(w, x, r, 2 * s, m, k), Mul(Power(w(2 * m), k), Bin(w, x, r + s, 2 * s, m, k)))
  {
    hide Power, Mul, IsPow2, IsRootTable, Root, Term;
    var f := Term(w, x, r, s, 2 * m, k);
    var even, tail := Term(w, x, r, 2 * s, m, k), Term(w, x, r + s, 2 * s, m, k);
    var odd := j => f(2 * j + 1);
    forall j | 0 <= j < m ensures even(j) == f(2 * j) && odd(j) == Mul(Power(w(2 * m), k), tail(j)) {
      EvenSample(w, x, r, s, m, k, j);
      OddSample(w, x, r, s, m, k, j);
    }
    SumEvenOdd(m, f, even, odd);
    SumMul(m, Power(w(2 * m), k), tail, odd);
  }

  /** A transform of m samples repeats with period m. */
  lemma BinPeriod(w: nat -> Complex, x: seq<Complex>, r: int, s: int, m: nat, k: int)
    requires IsRootTable(w) && IsPow2(m)
    ensures Bin(w, x, r, s, m, k + m) == Bin(w, x, r, s, m, k)
  {
    hide Power, Mul, IsPow2;
    var f, g := Term(w, x, r, s, m, k + m), Term(w, x, r, s, m, k);
    forall j | 0 <= j < m ensures f(j) == g(j) {
      RootPeriod(w, m, j * k, j);
      assert j * (k + m) == j * k + j * m;
    }
    SumCongruence(m, f, g);
  }

  /** The butterfly: bins k and k+m of the 2m-point transform from bin k of the two m-point transforms. */
  lemma Butterfly(w: nat -> Complex, x: seq<Complex>, r: int, s: int, m: nat, k: int)
    requires IsRootTable(w) && IsPow2(m)
    ensures var a := Bin(w, x, r, 2 * s, m, k);
            var b := Mul(Bin(w, x, r + s, 2 * s, m, k), Power(w(2 * m), k));
            Bin(w, x, r, s, 2 * m, k) == Add(a, b) && Bin(w, x, r, s, 2 * m, k + m) == Sub(a, b)
  {
    hide Power, Bin, IsPow2;
    Decimation(w, x, r, s, m, k);
    Decimation(w, x, r, s, m, k + m);
    BinPeriod(w, x, r, 2 * s, m, k);
    BinPeriod(w, x, r + s, 2 * s, m, k);
    RootHalfTurn(w, m, k);
  }

  // ---------- Inversion ----------

  function InverseTerm(w: nat -> Complex, y: seq<Complex>, i: int): int -> Complex {
    k => Mul(At(y, k), Root(w, |y|, -k, i))
  }

  /** Sample i of the unnormalised inverse transform: the sum of y[k] * w(n)^(-k*i). */
  function InverseBin(w: nat -> Complex, y: seq<Complex>, i: int): Complex {
    Sum(|y|, InverseTerm(w, y, i))
  }

  lemma SplitExponent(w: nat -> Complex, n: nat, a: Complex, j: int, k: int, i: int)
    requires IsRootTable(w) && IsPow2(n)
    ensures Mul(Root(w, n, -k, i), Mul(a, Root(w, n, j, k))) == Mul(a, Root(w, n, k, j - i))
  {
    hide Power, Mul, OnUnitCircle, IsPow2;
    assert k * (j - i) == j * k + -(k * i);
    RootDouble(w, n, 0);
    PowerAdd(w(n), j * k, -(k * i));
    MulComm(Root(w, n, -k, i), Mul(a, Root(w, n, j, k)));
    MulAssoc(a, Root(w, n, j, k), Root(w, n, -k, i));
  }

  lemma SmallMultiple(n: nat, d: int)
    requires d < n && -d < n
    ensures Divides(n, d) <==> d == 0
  {}

  /** Summing over the bins isolates one sample. */
  lemma InversionColumn(w: nat -> Complex, n: nat, a: Complex, j: int, i: int, col: int -> Complex)
    requires IsRootTable(w) && IsPow2(n) && 0 <= i < n && 0 <= j < n
    requires forall k :: 0 <= k < n ==> col(k) == Mul(a, Character(w, n, j - i)(k))
    ensures Sum(n, col) == if j == i then Mul(Real(n as real), a) else ZERO
  {
    hide Power, Mul, IsPow2, IsRootTable, Divides, Root;
    SumMul(n, a, Character(w, n, j - i), col);
    Orthogonality(w, n, j - i);
    MulComm(a, Real(n as real));
    MulUnits(a);
    SmallMultiple(n, j - i);
  }

  function InversionTerms(w: nat -> Complex, x: seq<Complex>, i: int): (int, int) -> Complex {
    (k, j) => Mul(Root(w, |x|, -k, i), Term(w, x, 0, 1, |x|, k)(j))
  }

  lemma InversionRow(w: nat -> Complex, x: seq<Complex>, i: int, k: int)
    requires 0 <= k < |x|
    ensures Row(|x|, InversionTerms(w, x, i))(k) == InverseTerm(w, Transform(w, x), i)(k)
  {
    hide Mul, Root, Term;
    var n, p := |x|, Root(w, |x|, -k, i);
    var t := Term(w, x, 0, 1, n, k);
    var row := j => Mul(p, t(j));
    SumMul(n, p, t, row);
    RowIsSum(n, InversionTerms(w, x, i), k, row);
    MulComm(p, Sum(n, t));
  }

  lemma TermAt(w: nat -> Complex, x: seq<Complex>, k: int, j: int)
    requires 0 <= j < |x|
    ensures Term(w, x, 0, 1, |x|, k)(j) == Mul(x[j], Root(w, |x|, j, k))
  {
    hide Mul, Power;
    var t := Term(w, x, 0, 1, |x|, k);
    assert t(j) == Mul(At(x, 0 + 1 * j), Root(w, |x|, j, k));
    assert At(x, 0 + 1 * j) == x[j];
  }

  lemma InversionPoint(w: nat -> Complex, x: seq<Complex>, i: int, k: int, j: int)
    requires IsRootTable(w) && IsPow2(|x|) && 0 <= j < |x|
    ensures InversionTerms(w, x, i)(k, j) == Mul(x[j], Root(w, |x|, k, j - i))
  {
    hide Mul, Root, IsRootTable, IsPow2;
    TermAt(w, x, k, j);
    SplitExponent(w, |x|, x[j], j, k, i);
  }

  lemma InversionColumns(w: nat -> Complex, x: seq<Complex>, i: int, j: int)
    requires IsRootTable(w) && IsPow2(|x|) && 0 <= i < |x| && 0 <= j < |x|
    ensures Column(|x|, InversionTerms(w, x, i))(j) == if j == i then Mul(Real(|x| as real), x[j]) else ZERO
  {
    hide Mul, Root, IsRootTable, IsPow2, InversionTerms;
    var col := k => Mul(x[j], Root(w, |x|, k, j - i));
    forall k | 0 <= k < |x| ensures col(k) == InversionTerms(w, x, i)(k, j) {
      InversionPoint(w, x, i, k, j);
    }
    ColumnIsSum(|x|, InversionTerms(w, x, i), j, col);
    InversionColumn(w, |x|, x[j], j, i, col);
  }

  /** The inverse sum applied to the transform gives back every sample, times the length. */
  lemma Inversion(w: nat -> Complex, x: seq<Complex>, i: int)
    requires IsRootTable(w) && IsPow2(|x|) && 0 <= i < |x|
    ensures InverseBin(w, Transform(w, x), i) == Mul(Real(|x| as real), x[i])
  {
    hide Mul, IsPow2, IsRootTable, Row, Column, InverseTerm, InversionTerms;
    var n, y, f := |x|, Transform(w, x), InversionTerms(w, x, i);
    forall k | 0 <= k < n ensures InverseTerm(w, y, i)(k) == Row(n, f)(k) {
      InversionRow(w, x, i, k);
    }
    forall j | 0 <= j < n ensures Column(n, f)(j) == if j == i then Mul(Real(n as real), x[j]) else ZERO {
      InversionColumns(w, x, i, j);
    }
    SumCongruence(n, InverseTerm(w, y, i), Row(n, f));
    SumSwap(n, n, f);
    SumSingle(n, i, Column(n, f));
  }

  function Conjugate(x: seq<Complex>): seq<Complex> { seq(|x|, i requires 0 <= i < |x| => Conj(x[i])) }

  /** Conjugating before and after a forward transform computes the inverse sum. */
  lemma ConjugateTrick(w: nat -> Complex, y: seq<Complex>, i: int)
    requires 0 <= i < |y|
    ensures Conj(Transform(w, Conjugate(y))[i]) == InverseBin(w, y, i)
  {
    hide Power, Mul;
    var n, c := |y|, Conjugate(y);
    var f, g := Term(w, c, 0, 1, n, i), InverseTerm(w, y, i);
    forall k | 0 <= k < n ensures g(k) == Conj(f(k)) {
      PowerConj(w(n), k * i);
      MulConj(c[k], Power(w(n), k * i));
      assert Conj(Conj(y[k])) == y[k];
    }
    SumConj(n, f, g);
  }

  // ---------- Conjugate symmetric spectra ----------

  lemma {:induction false} SumReverse(n: nat, f: int -> Complex, g: int -> Complex)
    requires forall i :: 0 <= i < n ==> g(i) == f(n - 1 - i)
    ensures Sum(n, g) == Sum(n, f)
  {
    if n > 0 {
      var rest := i => f(i + 1);
      forall i | 0 <= i < n - 1 ensures g(i) == rest(n - 2 - i) {}
      SumReverse(n - 1, rest, g);
      SumConcat(1, n - 1, f, rest);
      assert Sum(1, f) == Add(Sum(0, f), f(0));
    }
  }

  ghost predicate ConjugateSymmetric(y: seq<Complex>) {
    forall k :: 0 <= k < |y| ==> y[if k == 0 then 0 else |y| - k] == Conj(y[k])
  }

  lemma MirrorTerm(w: nat -> Complex, y: seq<Complex>, i: int, k: int)
    requires IsRootTable(w) && IsPow2(|y|) && ConjugateSymmetric(y) && 1 <= k < |y|
    ensures InverseTerm(w, y, i)(|y| - k) == Conj(InverseTerm(w, y, i)(k))
  {
    hide Power, Mul, IsPow2;
    var n := |y|;
    assert y[n - k] == Conj(y[k]);
    assert -((n - k) * i) == k * i + (-i) * n;
    RootPeriod(w, n, k * i, -i);
    PowerConj(w(n), -(k * i));
    MulConj(y[k], Root(w, n, -k, i));
  }

  lemma FirstInverseTerm(w: nat -> Complex, y: seq<Complex>, i: int)
    requires |y| > 0
    ensures Sum(1, InverseTerm(w, y, i)) == y[0]
  {}

  lemma PalindromeIsReal(n: nat, f: int -> Complex)
    requires forall k :: 0 <= k < n ==> f(n - 1 - k) == Conj(f(k))
    ensures Sum(n, f).im == 0.0
  {
    var c := k => Conj(f(k));
    SumConj(n, f, c);
    SumReverse(n, f, c);
  }

  lemma PowerOfTwoPositive(n: nat)
    requires IsPow2(n)
    ensures n > 0
  {}

  /** A conjugate symmetric spectrum has a real inverse transform. */
  lemma SymmetricIsReal(w: nat -> Complex, y: seq<Complex>, i: int)
    requires IsRootTable(w) && IsPow2(|y|) && ConjugateSymmetric(y)
    ensures InverseBin(w, y, i).im == 0.0
  {
    hide Mul, IsPow2, InverseTerm, IsRootTable;
    var n := |y|;
    assert n > 0 by { PowerOfTwoPositive(n); }
    var f := InverseTerm(w, y, i);
    var tail := k => f(1 + k);
    FirstInverseTerm(w, y, i);
    SumConcat(1, n - 1, f, tail);
    forall k | 0 <= k < n - 1 ensures tail(n - 2 - k) == Conj(tail(k)) {
      MirrorTerm(w, y, i, 1 + k);
    }
    PalindromeIsReal(n - 1, tail);
    assert y[0] == Conj(y[0]);
  }

  /** Bin 0 for k = 0, else bin n - k: the bin of the opposite frequency. */
  function Opposite(n: nat, k: int): int { if k == 0 then 0 else n - k }

  lemma RealTerm(w: nat -> Complex, x: seq<Complex>, k: int, j: int)
    requires IsRootTable(w) && IsPow2(|x|) && 0 <= j < |x| && 0 <= k < |x| && x[j].im == 0.0
    ensures Term(w, x, 0, 1, |x|, Opposite(|x|, k))(j) == Conj(Term(w, x, 0, 1, |x|, k)(j))
  {
    hide Power, Mul, IsPow2, Term;
    var n := |x|;
    TermAt(w, x, k, j);
    TermAt(w, x, Opposite(n, k), j);
    assert j * (n - k) == -(j * k) + j * n;
    if k > 0 { RootPeriod(w, n, -(j * k), j); }
    PowerConj(w(n), j * k);
    MulConj(x[j], Power(w(n), j * k));
  }

  /** The transform of a real signal is conjugate symmetric. */
  lemma RealSpectrumIsSymmetric(w: nat -> Complex, x: seq<Complex>)
    requires IsRootTable(w) && IsPow2(|x|) && forall j :: 0 <= j < |x| ==> x[j].im == 0.0
    ensures |Transform(w, x)| == |x| && ConjugateSymmetric(Transform(w, x))
  {
    hide Mul, IsPow2, IsRootTable, Term;
    var n, y := |x|, Transform(w, x);
    forall k | 0 <= k < n ensures y[Opposite(n, k)] == Conj(y[k]) {
      var f, g := Term(w, x, 0, 1, n, k), Term(w, x, 0, 1, n, Opposite(n, k));
      forall j | 0 <= j < n ensures g(j) == Conj(f(j)) { RealTerm(w, x, k, j); }
      SumConj(n, f, g);
    }
  }

  // ---------- Correlation ----------

  function PowerSpectrum(y: seq<Complex>): seq<Complex> {
    seq(|y|, k requires 0 <= k < |y| => Mul(y[k], Conj(y[k])))
  }

  function LagTerm(x: seq<Complex>, lag: int): int -> Complex { j => Mul(Conj(At(x, j)), At(x, lag + j)) }

  function CorrelationTerms(w: nat -> Complex, x: seq<Complex>, y: seq<Complex>, lag: int): (int, int) -> Complex {
    (k, j) => Mul(Conj(At(x, j)), Mul(At(y, k), Root(w, |x|, -k, lag + j)))
  }

  lemma SpectrumTerm(w: nat -> Complex, n: nat, a: Complex, b: Complex, j: int, k: int, lag: int)
    requires IsRootTable(w) && IsPow2(n)
    ensures Mul(Mul(a, Root(w, n, -k, lag)), Mul(b, Root(w, n, -j, k))) == Mul(b, Mul(a, Root(w, n, -k, lag + j)))
  {
    hide Power, Mul, OnUnitCircle, IsPow2;
    assert (-k) * (lag + j) == (-k) * lag + (-j) * k;
    RootDouble(w, n, 0);
    PowerAdd(w(n), (-k) * lag, (-j) * k);
    hide Root;
    var p, q := Root(w, n, -k, lag), Root(w, n, -j, k);
    MulShuffle(a, p, b, q);
    MulComm(a, b);
    MulAssoc(b, a, Mul(p, q));
  }

  lemma CorrelationTerm(w: nat -> Complex, x: seq<Complex>, y: Complex, lag: int, k: int, j: int)
    requires IsRootTable(w) && IsPow2(|x|) && 0 <= j < |x|
    ensures Mul(Conj(x[j]), Mul(y, Root(w, |x|, -k, lag + j))) ==
            Mul(Mul(y, Root(w, |x|, -k, lag)), Conj(Term(w, x, 0, 1, |x|, k)(j)))
  {
    hide Power, Mul, OnUnitCircle, IsPow2;
    PowerConj(w(|x|), j * k);
    assert (-j) * k == -(j * k) && 0 + 1 * j == j;
    MulConj(x[j], Root(w, |x|, j, k));
    hide Root;
    SpectrumTerm(w, |x|, y, Conj(x[j]), j, k, lag);
  }

  lemma SpectrumInverseTerm(w: nat -> Complex, y: seq<Complex>, lag: int, k: int)
    requires 0 <= k < |y|
    ensures InverseTerm(w, PowerSpectrum(y), lag)(k) == Mul(Mul(y[k], Root(w, |y|, -k, lag)), Conj(y[k]))
  {
    hide Root, Mul;
    var p := Root(w, |y|, -k, lag);
    MulAssoc(y[k], p, Conj(y[k]));
    MulComm(p, Conj(y[k]));
    MulAssoc(y[k], Conj(y[k]), p);
  }

  lemma CorrelationPoint(w: nat -> Complex, x: seq<Complex>, y: seq<Complex>, lag: int, k: int, j: int)
    requires IsRootTable(w) && IsPow2(|x|) && 0 <= j < |x| && 0 <= k < |y|
    ensures CorrelationTerms(w, x, y, lag)(k, j) ==
            Mul(Mul(y[k], Root(w, |x|, -k, lag)), Conj(Term(w, x, 0, 1, |x|, k)(j)))
  {
    hide Power, Mul, IsPow2, Root, IsRootTable, Term;
    var f := CorrelationTerms(w, x, y, lag);
    assert f(k, j) == Mul(Conj(At(x, j)), Mul(At(y, k), Root(w, |x|, -k, lag + j)));
    CorrelationTerm(w, x, y[k], lag, k, j);
  }

  /** Summing over the samples gives one bin of the power spectrum. */
  lemma CorrelationRow(w: nat -> Complex, x: seq<Complex>, y: seq<Complex>, lag: int, k: int)
    requires IsRootTable(w) && IsPow2(|x|) && 0 <= k < |x| && y == Transform(w, x)
    ensures Row(|x|, CorrelationTerms(w, x, y, lag))(k) == InverseTerm(w, PowerSpectrum(y), lag)(k)
  {
    hide Mul, IsPow2, Root, IsRootTable, Term, InverseTerm, CorrelationTerms, PowerSpectrum;
    var n, p := |x|, Root(w, |x|, -k, lag);
    var t := Term(w, x, 0, 1, n, k);
    var c := j => Conj(t(j));
    var row := j => CorrelationTerms(w, x, y, lag)(k, j);
    forall j | 0 <= j < n ensures row(j) == Mul(Mul(y[k], p), c(j)) {
      CorrelationPoint(w, x, y, lag, k, j);
    }
    SumConj(n, t, c);
    SumMul(n, Mul(y[k], p), c, row);
    RowIsSum(n, CorrelationTerms(w, x, y, lag), k, row);
    SpectrumInverseTerm(w, y, lag, k);
  }

  lemma CorrelationInverse(w: nat -> Complex, x: seq<Complex>, y: seq<Complex>, lag: int, j: int, k: int)
    requires 0 <= j < |x| == |y|
    ensures CorrelationTerms(w, x, y, lag)(k, j) == Mul(Conj(x[j]), InverseTerm(w, y, lag + j)(k))
  {}

  lemma Regroup(c: Complex, r: Complex, b: Complex, inv: Complex)
    requires c == ZERO || inv == Mul(r, b)
    ensures Mul(c, inv) == Mul(r, Mul(c, b))
  {
    hide Mul;
    MulUnits(inv);
    MulUnits(b);
    MulUnits(r);
    MulAssoc(c, r, b);
    MulComm(c, r);
    MulAssoc(r, c, b);
  }

  lemma LagTermAt(x: seq<Complex>, lag: int, j: int)
    requires 0 <= j < |x|
    ensures LagTerm(x, lag)(j) == Mul(Conj(x[j]), At(x, lag + j))
    ensures 0 <= lag + j < |x| ==> At(x, lag + j) == x[lag + j]
    ensures Conj(ZERO) == ZERO
  {
    hide Mul;
  }

  lemma LagProduct(w: nat -> Complex, x: seq<Complex>, lag: int, j: int)
    requires IsRootTable(w) && IsPow2(|x|) && lag >= 0 && 0 <= j < |x|
    requires lag + j >= |x| ==> x[j] == ZERO
    ensures Mul(Conj(x[j]), InverseBin(w, Transform(w, x), lag + j)) == Mul(Real(|x| as real), LagTerm(x, lag)(j))
  {
    hide *;
    if lag + j < |x| { Inversion(w, x, lag + j); }
    LagTermAt(x, lag, j);
    Regroup(Conj(x[j]), Real(|x| as real), At(x, lag + j), InverseBin(w, Transform(w, x), lag + j));
  }

  /** Summing over the bins gives one product of the correlation. */
  lemma CorrelationColumn(w: nat -> Complex, x: seq<Complex>, y: seq<Complex>, lag: int, j: int)
    requires IsRootTable(w) && IsPow2(|x|) && lag >= 0 && 0 <= j < |x| && y == Transform(w, x)
    requires lag + j >= |x| ==> x[j] == ZERO
    ensures Column(|x|, CorrelationTerms(w, x, y, lag))(j) == Mul(Real(|x| as real), LagTerm(x, lag)(j))
  {
    hide Mul, IsPow2, IsRootTable, CorrelationTerms, InverseTerm, LagTerm;
    var c := Conj(x[j]);
    var inv := InverseTerm(w, y, lag + j);
    var col := k => Mul(c, inv(k));
    forall k | 0 <= k < |x| ensures col(k) == CorrelationTerms(w, x, y, lag)(k, j) {
      CorrelationInverse(w, x, y, lag, j, k);
    }
    ColumnIsSum(|x|, CorrelationTerms(w, x, y, lag), j, col);
    SumMul(|x|, c, inv, col);
    LagProduct(w, x, lag, j);
  }

  /**
   Correlation theorem: where no product of the linear correlation wraps around the end, the inverse sum of
   the power spectrum is the linear correlation, times the length.
   */
  lemma Correlation(w: nat -> Complex, x: seq<Complex>, lag: int)
    requires IsRootTable(w) && IsPow2(|x|) && lag >= 0
    requires forall j :: 0 <= j < |x| && lag + j >= |x| ==> x[j] == ZERO
    ensures InverseBin(w, PowerSpectrum(Transform(w, x)), lag) ==
            Mul(Real(|x| as real), Sum(|x|, LagTerm(x, lag)))
  {
    hide Mul, IsPow2, Root, IsRootTable, Row, Column, LagTerm, InverseTerm, CorrelationTerms;
    var n, y := |x|, Transform(w, x);
    var p, f := PowerSpectrum(y), CorrelationTerms(w, x, y, lag);
    forall k | 0 <= k < n ensures InverseTerm(w, p, lag)(k) == Row(n, f)(k) {
      CorrelationRow(w, x, y, lag, k);
    }
    forall j | 0 <= j < n ensures Column(n, f)(j) == Mul(Real(n as real), LagTerm(x, lag)(j)) {
      CorrelationColumn(w, x, y, lag, j);
    }
    SumCongruence(n, InverseTerm(w, p, lag), Row(n, f));
    SumSwap(n, n, f);
    SumMul(n, Real(n as real), LagTerm(x, lag), Column(n, f));
  }
}
