/** The numpy vectors of the feature builder, as sequences of exact reals. A vector that
    numpy fills with NaN (a 0/0 division) is a sequence of `Num`; everything that cannot
    meet a NaN stays a plain `Vec`. */
module Vectors {

  type Vec = seq<real>

  /** `np.zeros(n)` */
  function Zeros(n: nat): (v: Vec)
    ensures |v| == n && forall i :: 0 <= i < n ==> v[i] == 0.0
  {
    seq(n, i => 0.0)
  }

  /** `a + b` on two arrays of one shape. */
  function Plus(a: Vec, b: Vec): (c: Vec)
    requires |a| == |b|
    ensures |c| == |a| && forall i :: 0 <= i < |a| ==> c[i] == a[i] + b[i]
  {
    seq(|a|, i requires 0 <= i < |a| => a[i] + b[i])
  }

  /** `a * r` */
  function Scale(a: Vec, r: real): (c: Vec)
    ensures |c| == |a| && forall i :: 0 <= i < |a| ==> c[i] == a[i] * r
  {
    seq(|a|, i requires 0 <= i < |a| => a[i] * r)
  }

  /** `a / d` for a non-zero divisor. */
  function Over(a: Vec, d: real): (c: Vec)
    requires d != 0.0
    ensures |c| == |a| && forall i :: 0 <= i < |a| ==> c[i] == a[i] / d
  {
    seq(|a|, i requires 0 <= i < |a| => a[i] / d)
  }

  /** Every vector of `vs` has length `n`: numpy adds them without a broadcasting error. */
  predicate Uniform(vs: seq<Vec>, n: nat) {
    forall i :: 0 <= i < |vs| ==> |vs[i]| == n
  }

  lemma UniformExtend(vs: seq<Vec>, n: nat, i: nat)
    requires i < |vs| && Uniform(vs[..i], n) && |vs[i]| == n
    ensures Uniform(vs[..i + 1], n)
  {
    assert forall x :: 0 <= x < i ==> vs[..i + 1][x] == vs[..i][x];
  }

  /** The running sum `acc += v` over the first `j` vectors, in order. */
  function Total(vs: seq<Vec>, n: nat, j: nat): (t: Vec)
    requires j <= |vs| && Uniform(vs, n)
    ensures |t| == n
    decreases j
  {
    if j == 0 then Zeros(n) else Plus(Total(vs, n, j - 1), vs[j - 1])
  }

  /** A sum over no vector is the zero vector. */
  lemma TotalOfNone(vs: seq<Vec>, n: nat)
    requires Uniform(vs, n)
    ensures Total(vs, n, 0) == Zeros(n)
  {
  }

  /** A running sum depends only on the vectors it has summed. */
  lemma {:induction false} TotalTake(vs: seq<Vec>, ws: seq<Vec>, n: nat, j: nat)
    requires j <= |vs| && j <= |ws| && Uniform(vs, n) && Uniform(ws, n) && vs[..j] == ws[..j]
    ensures Total(vs, n, j) == Total(ws, n, j)
    decreases j
  {
    if j > 0 {
      assert vs[..j - 1] == vs[..j][..j - 1] && ws[..j - 1] == ws[..j][..j - 1];
      assert vs[j - 1] == vs[..j][j - 1] && ws[j - 1] == ws[..j][j - 1];
      TotalTake(vs, ws, n, j - 1);
    }
  }

  /** Summing over a prefix one vector longer: earlier sums are unchanged, and the full sum
      gains the new vector. */
  lemma TotalExtend(vs: seq<Vec>, n: nat, i: nat, j: nat)
    requires i < |vs| && j <= i && Uniform(vs[..i + 1], n)
    ensures Uniform(vs[..i], n)
    ensures Total(vs[..i + 1], n, j) == Total(vs[..i], n, j)
    ensures Total(vs[..i + 1], n, i + 1) == Plus(Total(vs[..i], n, i), vs[i])
  {
    assert forall x :: 0 <= x < i ==> vs[..i][x] == vs[..i + 1][x];
    assert vs[..i + 1][..i] == vs[..i][..i];
    assert vs[..i + 1][..j] == vs[..i][..j];
    TotalTake(vs[..i + 1], vs[..i], n, i);
    TotalTake(vs[..i + 1], vs[..i], n, j);
  }

  /** The sum is taken column by column: entry `c` of the total is the sum of entry `c`
      of the first `j` vectors. */
  function ColumnSum(vs: seq<Vec>, c: nat, j: nat): real
    requires j <= |vs| && forall i :: 0 <= i < |vs| ==> c < |vs[i]|
    decreases j
  {
    if j == 0 then 0.0 else ColumnSum(vs, c, j - 1) + vs[j - 1][c]
  }

  lemma {:induction false} TotalIsColumnSum(vs: seq<Vec>, n: nat, j: nat, c: nat)
    requires j <= |vs| && Uniform(vs, n) && c < n
    ensures Total(vs, n, j)[c] == ColumnSum(vs, c, j)
    decreases j
  {
    if j > 0 {
      TotalIsColumnSum(vs, n, j - 1, c);
    }
  }

  /** Sums of non-negative columns are non-negative, and a positive column sum needs at
      least one vector. */
  lemma {:induction false} ColumnSumSign(vs: seq<Vec>, c: nat, j: nat)
    requires j <= |vs| && forall i :: 0 <= i < |vs| ==> c < |vs[i]|
    ensures j == 0 ==> ColumnSum(vs, c, j) == 0.0
    ensures (forall i :: 0 <= i < j ==> vs[i][c] >= 0.0) ==> ColumnSum(vs, c, j) >= 0.0
    decreases j
  {
    if j > 0 {
      ColumnSumSign(vs, c, j - 1);
    }
  }

  /** `np.sum(v)` over the three result counters. */
  function Sum3(v: Vec): real
    requires |v| == 3
  {
    v[0] + v[1] + v[2]
  }

  /** A float that may be NaN. Only the team averages of fill_info can be NaN (a 0/0), and
      NaN is sticky under addition and division. */
  datatype Num = Fin(x: real) | NaN

  type NVec = seq<Num>

  function Lift(v: Vec): (w: NVec)
    ensures |w| == |v| && forall i :: 0 <= i < |v| ==> w[i] == Fin(v[i])
  {
    seq(|v|, i requires 0 <= i < |v| => Fin(v[i]))
  }

  /** `np.zeros(n) / 0`: every entry is 0/0. */
  function NaNs(n: nat): (w: NVec)
    ensures |w| == n && forall i :: 0 <= i < n ==> w[i] == NaN
  {
    seq(n, i => NaN)
  }

  function NPlus(a: NVec, b: NVec): (c: NVec)
    requires |a| == |b|
    ensures |c| == |a|
    ensures forall i :: 0 <= i < |a| ==>
              c[i] == (if a[i].Fin? && b[i].Fin? then Fin(a[i].x + b[i].x) else NaN)
  {
    seq(|a|, i requires 0 <= i < |a| =>
      if a[i].Fin? && b[i].Fin? then Fin(a[i].x + b[i].x) else NaN)
  }

  function NOver(a: NVec, d: real): (c: NVec)
    requires d != 0.0
    ensures |c| == |a|
    ensures forall i :: 0 <= i < |a| ==> c[i] == (if a[i].Fin? then Fin(a[i].x / d) else NaN)
  {
    seq(|a|, i requires 0 <= i < |a| => if a[i].Fin? then Fin(a[i].x / d) else NaN)
  }

  predicate NUniform(vs: seq<NVec>, n: nat) {
    forall i :: 0 <= i < |vs| ==> |vs[i]| == n
  }

  lemma NUniformExtend(vs: seq<NVec>, n: nat, i: nat)
    requires i < |vs| && NUniform(vs[..i], n) && |vs[i]| == n
    ensures NUniform(vs[..i + 1], n)
  {
    assert forall x :: 0 <= x < i ==> vs[..i + 1][x] == vs[..i][x];
  }

  /** The running sum over the first `j` vectors of a NaN-aware sequence. */
  function NTotal(vs: seq<NVec>, n: nat, j: nat): (t: NVec)
    requires j <= |vs| && NUniform(vs, n)
    ensures |t| == n
    decreases j
  {
    if j == 0 then Lift(Zeros(n)) else NPlus(NTotal(vs, n, j - 1), vs[j - 1])
  }

  lemma {:induction false} NTotalTake(vs: seq<NVec>, ws: seq<NVec>, n: nat, j: nat)
    requires j <= |vs| && j <= |ws| && NUniform(vs, n) && NUniform(ws, n) && vs[..j] == ws[..j]
    ensures NTotal(vs, n, j) == NTotal(ws, n, j)
    decreases j
  {
    if j > 0 {
      assert vs[..j - 1] == vs[..j][..j - 1] && ws[..j - 1] == ws[..j][..j - 1];
      assert vs[j - 1] == vs[..j][j - 1] && ws[j - 1] == ws[..j][j - 1];
      NTotalTake(vs, ws, n, j - 1);
    }
  }

  lemma NTotalExtend(vs: seq<NVec>, n: nat, i: nat, j: nat)
    requires i < |vs| && j <= i && NUniform(vs[..i + 1], n)
    ensures NUniform(vs[..i], n)
    ensures NTotal(vs[..i + 1], n, j) == NTotal(vs[..i], n, j)
    ensures NTotal(vs[..i + 1], n, i + 1) == NPlus(NTotal(vs[..i], n, i), vs[i])
  {
    assert forall x :: 0 <= x < i ==> vs[..i][x] == vs[..i + 1][x];
    assert vs[..i + 1][..i] == vs[..i][..i];
    assert vs[..i + 1][..j] == vs[..i][..j];
    NTotalTake(vs[..i + 1], vs[..i], n, i);
    NTotalTake(vs[..i + 1], vs[..i], n, j);
  }

  /** Summing vectors without NaN gives the lifted sum of the plain vectors. */
  lemma {:induction false} NTotalOfLifted(vs: seq<Vec>, ws: seq<NVec>, n: nat, j: nat)
    requires |vs| == |ws| && Uniform(vs, n) && NUniform(ws, n) && j <= |vs|
    requires forall i :: 0 <= i < |vs| ==> ws[i] == Lift(vs[i])
    ensures NTotal(ws, n, j) == Lift(Total(vs, n, j))
    decreases j
  {
    if j > 0 {
      NTotalOfLifted(vs, ws, n, j - 1);
    }
  }

  /** One NaN vector among the summands makes the whole sum NaN. */
  lemma {:induction false} NTotalPoisoned(vs: seq<NVec>, n: nat, j: nat, bad: nat)
    requires j <= |vs| && NUniform(vs, n) && bad < j && vs[bad] == NaNs(n)
    ensures NTotal(vs, n, j) == NaNs(n)
    decreases j
  {
    if bad < j - 1 {
      NTotalPoisoned(vs, n, j - 1, bad);
    }
  }
}
