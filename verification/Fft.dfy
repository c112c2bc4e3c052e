/** The radix-2 transform of the pitch worklet: bit reversal, butterflies, and the inverse by conjugation. */
module Fft {
  import opened ComplexNumbers
  import opened Dft

  // ---------- Bit reversal ----------

  /** The reversal of b as a number of log2(s) bits, for a power of two s. */
  function Rev(s: nat, b: int): int
    decreases s
  {
    if s <= 1 then 0 else Rev(s / 2, b / 2) + (if b % 2 == 1 then s / 2 else 0)
  }

  lemma {:induction false} RevRange(s: nat, b: int)
    requires IsPow2(s)
    ensures 0 <= Rev(s, b) < s
  {
    if s > 1 { RevRange(s / 2, b / 2); }
  }

  lemma RevStep(m: nat, b: int)
    requires m > 0
    ensures Rev(2 * m, b) == Rev(m, b / 2) + (if b % 2 == 1 then m else 0)
  {}

  /** Reversal read from the other end: the top bit of b becomes the lowest bit. */
  lemma {:induction false} RevTop(m: nat, b: int)
    requires IsPow2(m) && 0 <= b < 2 * m
    ensures Rev(2 * m, b) == if b >= m then 2 * Rev(m, b - m) + 1 else 2 * Rev(m, b)
    decreases m
  {
    RevStep(m, b);
    if m > 1 {
      var h := m / 2;
      assert IsPow2(h) && m == 2 * h;
      hide Rev, IsPow2;
      RevTop(h, b / 2);
      RevStep(h, b);
      RevStep(h, b - m);
    }
  }

  /** Bit reversal is its own inverse. */
  lemma {:induction false} RevInvolution(s: nat, b: int)
    requires IsPow2(s) && 0 <= b < s
    ensures 0 <= Rev(s, b) < s && Rev(s, Rev(s, b)) == b
  {
    RevRange(s, b);
    if s > 1 {
      var m := s / 2;
      assert s == 2 * m && IsPow2(m);
      hide Rev, IsPow2;
      RevStep(m, b);
      RevRange(m, b / 2);
      RevInvolution(m, b / 2);
      RevTop(m, Rev(s, b));
    }
  }

  /** The bit test of the source, for a power of two `bit`. */
  predicate BitSet(j: nat, bit: nat) { bit > 0 && (j / bit) % 2 == 1 }

  lemma OneDigit(r: nat, m: nat)
    requires r < m
    ensures r / m == 0 && (r + m) / m == 1
  {}

  lemma TopBit(m: nat, b: int)
    requires IsPow2(m)
    ensures Rev(2 * m, b) >= 0
    ensures BitSet(Rev(2 * m, b), m) <==> b % 2 == 1
  {
    hide Rev, IsPow2;
    RevRange(m, b / 2);
    RevStep(m, b);
    OneDigit(Rev(m, b / 2), m);
  }

  // ---------- Arrays as complex signals ----------

  function Pack(re: seq<real>, im: seq<real>): (z: seq<Complex>)
    requires |re| == |im|
    ensures |z| == |re|
  {
    seq(|re|, i requires 0 <= i < |re| => Complex(re[i], im[i]))
  }

  // ---------- The permutation pass ----------

  /** The state of the permutation pass before step i: pairs whose smaller index is below i are swapped. */
  ghost predicate SwappedBelow(now: seq<real>, was: seq<real>, i: int) {
    && |now| == |was|
    && forall k :: 0 <= k < |now| ==>
         var r := Rev(|now|, k);
         0 <= r < |now| && now[k] == was[if k < i || r < i then r else k]
  }

  /** Every sample has moved to the bit reversal of its index. */
  ghost predicate BitReversed(now: seq<real>, was: seq<real>) {
    && |now| == |was|
    && forall k :: 0 <= k < |now| ==> 0 <= Rev(|now|, k) < |now| && now[k] == was[Rev(|now|, k)]
  }

  lemma FullySwapped(now: seq<real>, was: seq<real>, i: int)
    requires SwappedBelow(now, was, i) && i >= |now|
    ensures BitReversed(now, was)
  {}

  lemma CounterCarries(bit: nat, b: int)
    requires IsPow2(bit) && 0 <= b && b + 1 < 2 * bit && b % 2 == 1
    ensures IsPow2(bit / 2) && bit == 2 * (bit / 2) && b / 2 + 1 < bit
    ensures 0 <= Rev(2 * bit, b) - bit == Rev(bit, b / 2)
    ensures Rev(2 * bit, b + 1) == Rev(bit, b / 2 + 1)
  {
    assert bit > 1 && IsPow2(bit / 2);
    hide Rev, IsPow2;
    RevStep(bit, b);
    RevStep(bit, b + 1);
    RevRange(bit, b / 2);
  }

  lemma CounterStops(bit: nat, b: int)
    requires bit > 0 && b % 2 == 0
    ensures Rev(2 * bit, b) + bit == Rev(2 * bit, b + 1)
  {
    hide Rev;
    RevStep(bit, b);
    RevStep(bit, b + 1);
  }

  /** The incremental counter: from the reversal of i - 1 to the reversal of i. */
  method NextReversed(n: nat, i: int, j0: nat) returns (j: nat)
    requires IsPow2(n) && 1 <= i < n && j0 == Rev(n, i - 1)
    ensures j == Rev(n, i)
  {
    j := j0;
    var bit: nat := n / 2;
    assert IsPow2(bit) && n == 2 * bit && bit > 0;
    hide Rev, IsPow2, BitSet;
    ghost var b := i - 1;
    TopBit(bit, b);
    while BitSet(j, bit)
      invariant IsPow2(bit) && bit > 0 && 0 <= b && b + 1 < 2 * bit
      invariant j == Rev(2 * bit, b) && Rev(2 * bit, b + 1) == Rev(n, i)
      invariant BitSet(j, bit) <==> b % 2 == 1
      decreases bit
    {
      CounterCarries(bit, b);
      j := j - bit;
      bit := bit / 2;
      b := b / 2;
      TopBit(bit, b);
    }
    CounterStops(bit, b);
    j := j + bit;
  }

  lemma {:induction false} RevOfZero(s: nat)
    ensures Rev(s, 0) == 0
  {
    if s > 1 { RevOfZero(s / 2); }
  }

  lemma InitiallyUnswapped(a: seq<real>)
    requires IsPow2(|a|)
    ensures |a| > 0 && SwappedBelow(a, a, 1) && Rev(|a|, 0) == 0
  {
    RevOfZero(|a|);
    forall k | 0 <= k < |a| ensures 0 <= Rev(|a|, k) < |a| && (k < 1 || Rev(|a|, k) < 1 ==> k == Rev(|a|, k)) {
      RevInvolution(|a|, k);
    }
  }

  lemma SwapStep(before: seq<real>, was: seq<real>, now: seq<real>, i: int, j: int)
    requires |before| == |now| && IsPow2(|now|) && 1 <= i < |now| && j == Rev(|now|, i) && 0 <= j < |now|
    requires Rev(|now|, j) == i
    requires SwappedBelow(before, was, i)
    requires now == if i < j then before[i := before[j]][j := before[i]] else before
    ensures SwappedBelow(now, was, i + 1)
  {
    forall k | 0 <= k < |now|
      ensures var r := Rev(|now|, k);
              0 <= r < |now| && now[k] == was[if k < i + 1 || r < i + 1 then r else k]
    {
      RevInvolution(|now|, k);
      assert before[k] == was[if k < i || Rev(|now|, k) < i then Rev(|now|, k) else k];
      assert before[i] == was[if i < i || j < i then j else i];
      assert before[j] == was[if j < i || i < i then i else j];
    }
  }

  method BitReversalPass(re: array<real>, im: array<real>)
    requires re != im && re.Length == im.Length && IsPow2(re.Length)
    modifies re, im
    ensures BitReversed(re[..], old(re[..])) && BitReversed(im[..], old(im[..]))
  {
    hide Rev, IsPow2, SwappedBelow, BitReversed;
    var n := re.Length;
    var i, j := 1, 0;
    InitiallyUnswapped(re[..]);
    InitiallyUnswapped(im[..]);
    while i < n
      invariant 1 <= i && (i <= n || n == 1)
      invariant 0 <= j == Rev(n, i - 1)
      invariant SwappedBelow(re[..], old(re[..]), i)
      invariant SwappedBelow(im[..], old(im[..]), i)
    {
      j := NextReversed(n, i, j);
      RevInvolution(n, i);
      ghost var r, m := re[..], im[..];
      if i < j {
        re[i], re[j] := re[j], re[i];
        im[i], im[j] := im[j], im[i];
        assert re[..] == r[i := r[j]][j := r[i]] && im[..] == m[i := m[j]][j := m[i]];
      }
      SwapStep(r, old(re[..]), re[..], i, j);
      SwapStep(m, old(im[..]), im[..], i, j);
      i := i + 1;
    }
    FullySwapped(re[..], old(re[..]), i);
    FullySwapped(im[..], old(im[..]), i);
  }

  // ---------- The butterfly stages ----------

  ghost predicate CellDone(w: nat -> Complex, x: seq<Complex>, z: seq<Complex>, s: nat, m: nat, b: int, k: int) {
    0 <= b * m + k < |z| && z[b * m + k] == Bin(w, x, Rev(s, b), s, m, k)
  }

  /** Block b of length m holds the transform of its bit-reversed residue class of x. */
  ghost predicate BlockDone(w: nat -> Complex, x: seq<Complex>, z: seq<Complex>, s: nat, m: nat, b: int) {
    forall k :: 0 <= k < m ==> CellDone(w, x, z, s, m, b, k)
  }

  /** The first j butterflies of the block of length 2*half at `start`, applied to `was`, give `now`. */
  ghost predicate Combined(z: Complex, now: seq<Complex>, was: seq<Complex>, start: nat, half: nat, j: nat) {
    && |now| == |was| && start + 2 * half <= |now| && j <= half
    && (forall t :: 0 <= t < |now| && !(start <= t < start + j) && !(start + half <= t < start + half + j) ==>
        now[t] == was[t])
    && forall k :: 0 <= k < j ==>
         var a, b := was[start + k], Mul(was[start + half + k], Power(z, k));
         now[start + k] == Add(a, b) && now[start + half + k] == Sub(a, b)
  }

  lemma CombineStep(z: Complex, before: seq<Complex>, was: seq<Complex>, start: nat, half: nat, j: nat, b: Complex)
    requires Combined(z, before, was, start, half, j) && j < half
    requires b == Mul(before[start + half + j], Power(z, j))
    ensures var a := before[start + j];
            Combined(z, before[start + j := Add(a, b)][start + half + j := Sub(a, b)], was, start, half, j + 1)
  {
    hide Mul, Power;
    var a := before[start + j];
    var now := before[start + j := Add(a, b)][start + half + j := Sub(a, b)];
    assert a == was[start + j] && before[start + half + j] == was[start + half + j];
    forall k | 0 <= k < j + 1
      ensures var c, d := was[start + k], Mul(was[start + half + k], Power(z, k));
              now[start + k] == Add(c, d) && now[start + half + k] == Sub(c, d)
    {
      if k < j { assert now[start + k] == before[start + k] && now[start + half + k] == before[start + half + k]; }
    }
  }

  lemma PackUpdate(re: seq<real>, im: seq<real>, i: nat, v: Complex)
    requires |re| == |im| && i < |re|
    ensures Pack(re[i := v.re], im[i := v.im]) == Pack(re, im)[i := v]
  {}

  lemma CombineStart(z: Complex, was: seq<Complex>, start: nat, half: nat)
    requires start + 2 * half <= |was|
    ensures Combined(z, was, was, start, half, 0)
  {}

  method ButterflyBlock(re: array<real>, im: array<real>, start: nat, half: nat, z: Complex)
    requires re != im && re.Length == im.Length && start + 2 * half <= re.Length
    modifies re, im
    ensures Combined(z, Pack(re[..], im[..]), old(Pack(re[..], im[..])), start, half, half)
  {
    hide Combined, Mul;
    ghost var was := Pack(re[..], im[..]);
    var cur := ONE;
    var j: nat := 0;
    CombineStart(z, was, start, half);
    while j < half
      invariant j <= half && cur == Power(z, j)
      invariant Combined(z, Pack(re[..], im[..]), was, start, half, j)
    {
      var idxA := start + j;
      var idxB := idxA + half;
      ghost var r, m := re[..], im[..];
      var a := Complex(re[idxA], im[idxA]);
      var b := Mul(Complex(re[idxB], im[idxB]), cur);
      re[idxA], im[idxA] := a.re + b.re, a.im + b.im;
      re[idxB], im[idxB] := a.re - b.re, a.im - b.im;
      PackUpdate(r, m, idxA, Add(a, b));
      PackUpdate(r[idxA := a.re + b.re], m[idxA := a.im + b.im], idxB, Sub(a, b));
      assert re[..] == r[idxA := a.re + b.re][idxB := a.re - b.re];
      assert im[..] == m[idxA := a.im + b.im][idxB := a.im - b.im];
      CombineStep(z, Pack(r, m), was, start, half, j, b);
      MulComm(cur, z);
      cur := Mul(cur, z);
      j := j + 1;
    }
  }

  lemma BlockOffsets(b: nat, m: nat)
    ensures (2 * b) * m == b * (2 * m) && (2 * b + 1) * m == b * (2 * m) + m
    ensures (2 * (b + 1)) * m == b * (2 * m) + 2 * m
  {}

  /** Combining blocks 2b and 2b+1 of length m makes block b of length 2m. */
  lemma BlockStep(w: nat -> Complex, x: seq<Complex>, now: seq<Complex>, was: seq<Complex>,
                  start: nat, s: nat, m: nat, b: nat)
    requires IsRootTable(w) && IsPow2(m) && s > 0 && start == b * (2 * m)
    requires Combined(w(2 * m), now, was, start, m, m)
    requires BlockDone(w, x, was, 2 * s, m, 2 * b) && BlockDone(w, x, was, 2 * s, m, 2 * b + 1)
    ensures BlockDone(w, x, now, s, 2 * m, b)
  {
    hide IsRootTable, IsPow2, Bin, Mul, Rev, Power;
    BlockOffsets(b, m);
    RevStep(s, 2 * b);
    RevStep(s, 2 * b + 1);
    forall k | 0 <= k < 2 * m ensures CellDone(w, x, now, s, 2 * m, b, k) {
      var h := if k < m then k else k - m;
      assert CellDone(w, x, was, 2 * s, m, 2 * b, h) && CellDone(w, x, was, 2 * s, m, 2 * b + 1, h);
      Butterfly(w, x, Rev(s, b), s, m, h);
    }
  }

  lemma OffsetsMonotonic(a: nat, b: nat, m: nat)
    ensures a <= b ==> a * m <= b * m
    ensures a < b ==> a * m + m <= b * m
  {
    if a <= b {
      assert b * m == a * m + (b - a) * m;
      MulSign(m, b - a);
      assert m * (b - a) == (b - a) * m;
    }
  }

  /** Blocks that do not meet the combined one keep their transforms. */
  lemma BlockFrame(w: nat -> Complex, x: seq<Complex>, now: seq<Complex>, was: seq<Complex>,
                   z: Complex, start: nat, half: nat, s: nat, m: nat, c: int)
    requires Combined(z, now, was, start, half, half) && BlockDone(w, x, was, s, m, c)
    requires c * m + m <= start || start + 2 * half <= c * m
    ensures BlockDone(w, x, now, s, m, c)
  {
    hide Bin, Mul, Rev, Power;
    forall k | 0 <= k < m ensures CellDone(w, x, now, s, m, c, k) {
      assert CellDone(w, x, was, s, m, c, k);
    }
  }

  ghost predicate BlocksDone(w: nat -> Complex, x: seq<Complex>, z: seq<Complex>, s: nat, m: nat, from: nat, to: nat) {
    forall b :: from <= b < to ==> BlockDone(w, x, z, s, m, b)
  }

  lemma StageStep(w: nat -> Complex, x: seq<Complex>, now: seq<Complex>, was: seq<Complex>,
                  start: nat, s: nat, m: nat, b: nat)
    requires IsRootTable(w) && IsPow2(m) && b < s && start == b * (2 * m)
    requires Combined(w(2 * m), now, was, start, m, m)
    requires BlocksDone(w, x, was, s, 2 * m, 0, b) && BlocksDone(w, x, was, 2 * s, m, 2 * b, 2 * s)
    ensures BlocksDone(w, x, now, s, 2 * m, 0, b + 1) && BlocksDone(w, x, now, 2 * s, m, 2 * (b + 1), 2 * s)
  {
    hide IsRootTable, IsPow2, Combined, BlockDone;
    BlockStep(w, x, now, was, start, s, m, b);
    BlockOffsets(b, m);
    forall c: nat | c < b ensures BlockDone(w, x, now, s, 2 * m, c) {
      OffsetsMonotonic(c, b, 2 * m);
      BlockFrame(w, x, now, was, w(2 * m), start, m, s, 2 * m, c);
    }
    forall c: nat | 2 * (b + 1) <= c < 2 * s ensures BlockDone(w, x, now, 2 * s, m, c) {
      OffsetsMonotonic(2 * (b + 1), c, m);
      BlockFrame(w, x, now, was, w(2 * m), start, m, 2 * s, m, c);
    }
  }

  lemma NoBlocks(w: nat -> Complex, x: seq<Complex>, z: seq<Complex>, s: nat, m: nat)
    ensures BlocksDone(w, x, z, s, m, 0, 0)
  {}

  lemma InsideBlocks(b: nat, s: nat, len: nat)
    requires b * len < s * len
    ensures b < s && b * len + len <= s * len
  {
    OffsetsMonotonic(s, b, len);
    OffsetsMonotonic(b, s, len);
  }

  lemma AllBlocks(b: nat, s: nat, len: nat)
    requires b <= s && b * len >= s * len && len > 0
    ensures b == s
  {}

  /** One stage: every pair of neighbouring blocks is combined, left to right. */
  method Stage(re: array<real>, im: array<real>, len: nat, w: nat -> Complex, ghost x: seq<Complex>, ghost s: nat)
    requires re != im && re.Length == im.Length && IsRootTable(w)
    requires len > 0 && len % 2 == 0 && IsPow2(len / 2) && s * len == re.Length
    requires BlocksDone(w, x, Pack(re[..], im[..]), 2 * s, len / 2, 0, 2 * s)
    modifies re, im
    ensures BlocksDone(w, x, Pack(re[..], im[..]), s, len, 0, s)
  {
    hide IsRootTable, IsPow2, Combined, BlocksDone;
    var half := len / 2;
    var i: nat := 0;
    ghost var b: nat := 0;
    NoBlocks(w, x, Pack(re[..], im[..]), s, len);
    while i < re.Length
      invariant i == b * len && b <= s
      invariant BlocksDone(w, x, Pack(re[..], im[..]), s, len, 0, b)
      invariant BlocksDone(w, x, Pack(re[..], im[..]), 2 * s, half, 2 * b, 2 * s)
    {
      InsideBlocks(b, s, len);
      ghost var was := Pack(re[..], im[..]);
      ButterflyBlock(re, im, i, half, w(len));
      StageStep(w, x, Pack(re[..], im[..]), was, i, s, half, b);
      i := i + len;
      b := b + 1;
    }
    AllBlocks(b, s, len);
  }

  lemma SingleBin(w: nat -> Complex, x: seq<Complex>, r: nat, s: int)
    requires r < |x|
    ensures Bin(w, x, r, s, 1, 0) == x[r]
  {}

  /** After the permutation pass every block of length 1 is the transform of its one sample. */
  lemma SingleSamples(w: nat -> Complex, re: seq<real>, im: seq<real>, re0: seq<real>, im0: seq<real>)
    requires |re| == |im| == |re0| == |im0|
    requires BitReversed(re, re0) && BitReversed(im, im0)
    ensures BlocksDone(w, Pack(re0, im0), Pack(re, im), |re|, 1, 0, |re|)
  {
    hide Rev, Mul;
    var n, x := |re|, Pack(re0, im0);
    forall b: nat | b < n ensures BlockDone(w, x, Pack(re, im), n, 1, b) {
      assert 0 <= Rev(n, b) < n && re[b] == re0[Rev(n, b)] && im[b] == im0[Rev(n, b)];
      SingleBin(w, x, Rev(n, b), n);
    }
  }

  lemma LastStage(w: nat -> Complex, x: seq<Complex>, z: seq<Complex>)
    requires |z| == |x| && BlocksDone(w, x, z, 1, |x|, 0, 1)
    ensures z == Transform(w, x)
  {
    hide Bin;
    assert BlockDone(w, x, z, 1, |x|, 0);
    forall k | 0 <= k < |x| ensures z[k] == Transform(w, x)[k] {
      assert CellDone(w, x, z, 1, |x|, 0, k);
    }
  }

  lemma HalveBlocks(s: nat, m: nat, n: nat)
    requires IsPow2(s) && IsPow2(m) && s * m == n && 2 * m <= n
    ensures s == 2 * (s / 2) && IsPow2(s / 2) && IsPow2(2 * m) && (s / 2) * (2 * m) == n
  {
    assert m > 0 && IsPow2(2 * m) && s != 1;
    hide IsPow2;
    BlockOffsets(s / 2, m);
  }

  lemma PowersOfTwo(n: nat)
    requires IsPow2(n)
    ensures n > 0 && IsPow2(1)
  {}

  lemma SingleBlock(s: nat, m: nat, n: nat)
    requires IsPow2(s) && m > 0 && s * m == n && 2 * m > n
    ensures s == 1 && m == n
  {}

  /** The in-place transform leaves exactly the discrete Fourier transform of its input. */
  method Fft(re: array<real>, im: array<real>, w: nat -> Complex)
    requires re != im && re.Length == im.Length && IsPow2(re.Length) && IsRootTable(w)
    modifies re, im
    ensures Pack(re[..], im[..]) == Transform(w, old(Pack(re[..], im[..])))
  {
    hide IsRootTable, IsPow2, BlocksDone, BitReversed, Transform, Pack;
    ghost var x := Pack(re[..], im[..]);
    var n: nat := re.Length;
    BitReversalPass(re, im);
    SingleSamples(w, re[..], im[..], old(re[..]), old(im[..]));
    var len: nat := 2;
    ghost var s: nat := n;
    PowersOfTwo(n);
    while len <= n
      invariant len % 2 == 0 && len > 0 && IsPow2(len / 2) && IsPow2(s) && s * (len / 2) == n
      invariant BlocksDone(w, x, Pack(re[..], im[..]), s, len / 2, 0, s)
      decreases n - len
    {
      HalveBlocks(s, len / 2, n);
      Stage(re, im, len, w, x, s / 2);
      s := s / 2;
      len := 2 * len;
    }
    SingleBlock(s, len / 2, n);
    LastStage(w, x, Pack(re[..], im[..]));
  }

  // ---------- The inverse ----------

  function Scaled(c: real, z: seq<Complex>): seq<Complex> {
    seq(|z|, i requires 0 <= i < |z| => Scale(c, z[i]))
  }

  /** The normalised inverse transform. */
  function Inverse(w: nat -> Complex, y: seq<Complex>): seq<Complex>
    requires |y| > 0
  {
    seq(|y|, i => Scale(1.0 / |y| as real, InverseBin(w, y, i)))
  }

  method Negate(a: array<real>)
    modifies a
    ensures forall k :: 0 <= k < a.Length ==> a[k] == -old(a[k])
  {
    for i := 0 to a.Length
      invariant forall k :: 0 <= k < i ==> a[k] == -old(a[k])
      invariant forall k :: i <= k < a.Length ==> a[k] == old(a[k])
    {
      a[i] := -a[i];
    }
  }

  method Normalise(re: array<real>, im: array<real>)
    requires re != im && re.Length == im.Length > 0
    modifies re, im
    ensures Pack(re[..], im[..]) == Scaled(1.0 / re.Length as real, Conjugate(old(Pack(re[..], im[..]))))
  {
    hide Scale, Conj;
    var inv := 1.0 / re.Length as real;
    for i := 0 to re.Length
      invariant forall k :: 0 <= k < i ==> Complex(re[k], im[k]) == Scale(inv, Conj(old(Complex(re[k], im[k]))))
      invariant forall k :: i <= k < re.Length ==> re[k] == old(re[k]) && im[k] == old(im[k])
    {
      var z := Scale(inv, Conj(Complex(re[i], im[i])));
      re[i] := z.re;
      im[i] := z.im;
    }
  }

  lemma PackConjugate(re: seq<real>, im: seq<real>, neg: seq<real>)
    requires |re| == |im| == |neg| && forall k :: 0 <= k < |im| ==> neg[k] == -im[k]
    ensures Pack(re, neg) == Conjugate(Pack(re, im))
  {}

  lemma TransformLength(w: nat -> Complex, x: seq<Complex>)
    ensures |Transform(w, x)| == |x|
  {}

  lemma InverseByConjugation(w: nat -> Complex, y: seq<Complex>)
    requires |y| > 0
    ensures Inverse(w, y) == Scaled(1.0 / |y| as real, Conjugate(Transform(w, Conjugate(y))))
  {
    hide Transform, InverseBin, Scale;
    TransformLength(w, Conjugate(y));
    forall i | 0 <= i < |y|
      ensures Inverse(w, y)[i] == Scaled(1.0 / |y| as real, Conjugate(Transform(w, Conjugate(y))))[i]
    {
      ConjugateTrick(w, y, i);
    }
  }

  /** The in-place inverse by conjugation leaves exactly the normalised inverse transform. */
  method Ifft(re: array<real>, im: array<real>, w: nat -> Complex)
    requires re != im && re.Length == im.Length && IsPow2(re.Length) && IsRootTable(w)
    modifies re, im
    ensures re.Length > 0 && Pack(re[..], im[..]) == Inverse(w, old(Pack(re[..], im[..])))
  {
    hide IsRootTable, IsPow2, Transform, Inverse, Pack, Conjugate, Scaled;
    PowersOfTwo(re.Length);
    ghost var y := Pack(re[..], im[..]);
    Negate(im);
    PackConjugate(re[..], old(im[..]), im[..]);
    Fft(re, im, w);
    Normalise(re, im);
    InverseByConjugation(w, y);
  }

  lemma Unscale(n: nat, a: Complex)
    requires n > 0
    ensures Scale(1.0 / n as real, Mul(Real(n as real), a)) == a
  {}

  /** The inverse undoes the transform, for every power-of-two length and every input. */
  lemma InverseUndoesTransform(w: nat -> Complex, x: seq<Complex>)
    requires IsRootTable(w) && IsPow2(|x|)
    ensures |x| > 0 && |Transform(w, x)| == |x| && Inverse(w, Transform(w, x)) == x
  {
    hide Transform, InverseBin, Scale, Mul, IsPow2;
    PowersOfTwo(|x|);
    TransformLength(w, x);
    forall i | 0 <= i < |x| ensures Inverse(w, Transform(w, x))[i] == x[i] {
      Inversion(w, x, i);
      Unscale(|x|, x[i]);
    }
  }

  lemma ScaleCommutes(c: real, a: Complex, b: Complex)
    ensures Mul(Scale(c, a), b) == Mul(Real(c), Mul(a, b)) && Scale(c, a) == Mul(Real(c), a)
  {}

  lemma TransformScaled(w: nat -> Complex, c: real, z: seq<Complex>, k: int)
    requires 0 <= k < |z|
    ensures Transform(w, Scaled(c, z))[k] == Scale(c, Transform(w, z)[k])
  {
    hide Mul, Root, Scale, Real;
    var n := |z|;
    var f, g := Term(w, z, 0, 1, n, k), Term(w, Scaled(c, z), 0, 1, n, k);
    forall j | 0 <= j < n ensures g(j) == Mul(Real(c), f(j)) {
      TermAt(w, z, k, j);
      TermAt(w, Scaled(c, z), k, j);
      ScaleCommutes(c, z[j], Root(w, n, j, k));
    }
    SumMul(n, Real(c), f, g);
    ScaleCommutes(c, Sum(n, f), ONE);
  }

  lemma ConjReal(r: real, a: Complex)
    ensures Conj(Mul(Real(r), Conj(a))) == Mul(Real(r), a) && Conj(Conj(a)) == a
  {}

  /** The transform undoes the inverse, so both are bijections. */
  lemma TransformUndoesInverse(w: nat -> Complex, y: seq<Complex>)
    requires IsRootTable(w) && IsPow2(|y|)
    ensures |y| > 0 && Transform(w, Inverse(w, y)) == y
  {
    hide Transform, InverseBin, Scale, Mul, IsPow2, Real;
    PowersOfTwo(|y|);
    var n, t := |y|, Transform(w, Conjugate(y));
    InverseByConjugation(w, y);
    TransformLength(w, Conjugate(y));
    TransformLength(w, Inverse(w, y));
    TransformLength(w, Conjugate(t));
    forall i | 0 <= i < n ensures Transform(w, Inverse(w, y))[i] == y[i] {
      TransformScaled(w, 1.0 / n as real, Conjugate(t), i);
      ConjugateTrick(w, t, i);
      Inversion(w, Conjugate(y), i);
      ConjReal(n as real, y[i]);
      ConjReal(n as real, Transform(w, Conjugate(t))[i]);
      Unscale(n, y[i]);
    }
  }

  // ---------- The mirror step ----------

  /** Copies bins 1..half-1 conjugated to the upper half and makes bins 0 and half real. */
  method Mirror(re: array<real>, im: array<real>, half: nat)
    requires re != im && re.Length == im.Length == 2 * half && half > 0
    modifies re, im
    ensures ConjugateSymmetric(Pack(re[..], im[..]))
    ensures forall k :: 0 <= k <= half ==> re[k] == old(re[k])
    ensures forall k :: 0 < k < half ==> im[k] == old(im[k])
    ensures im[0] == 0.0 == im[half]
  {
    for k := 1 to half
      invariant forall t :: 0 <= t <= half ==> re[t] == old(re[t]) && im[t] == old(im[t])
      invariant forall t :: 1 <= t < k ==> re[2 * half - t] == re[t] && im[2 * half - t] == -im[t]
    {
      re[2 * half - k] := re[k];
      im[2 * half - k] := -im[k];
    }
    im[0] := 0.0;
    im[half] := 0.0;
    ghost var z := Pack(re[..], im[..]);
    forall k | 0 <= k < |z| ensures z[if k == 0 then 0 else |z| - k] == Conj(z[k]) {
      var t := if k <= half then k else 2 * half - k;
      assert 1 <= t < half ==> re[2 * half - t] == re[t] && im[2 * half - t] == -im[t];
    }
  }

  /** After the mirror step the inverse leaves a signal without an imaginary part. */
  lemma MirroredInverseIsReal(w: nat -> Complex, y: seq<Complex>)
    requires IsRootTable(w) && IsPow2(|y|) && ConjugateSymmetric(y)
    ensures |y| > 0 && forall i :: 0 <= i < |y| ==> Inverse(w, y)[i].im == 0.0
  {
    hide InverseBin, IsPow2, IsRootTable;
    PowersOfTwo(|y|);
    forall i | 0 <= i < |y| ensures Inverse(w, y)[i].im == 0.0 {
      SymmetricIsReal(w, y, i);
    }
  }
}
