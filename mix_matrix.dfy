/**
 * The two orthogonal mixing matrices of the reverb, as in-place transforms
 * over the first `size` entries of a buffer:
 *
 *  - Householder: the reflection I - (2/N) 1 1^T. It sums the entries, scales
 *    the sum by -2/N and adds that value to every entry.
 *  - Hadamard: a recursive sum/difference butterfly over the two halves of
 *    the buffer, followed by a scaling by sqrt(1/N).
 *
 * Samples are real numbers; the scaling factor sqrt(1/N) is passed in, with
 * the one fact about it the proofs need (s > 0 and s * s * N == 1).
 */
module MixMatrix {
  import opened Vectors

  /* ---------------------------------------------------------------- */
  /* Householder                                                      */
  /* ---------------------------------------------------------------- */

  /** The constant -2/size the Householder sum is scaled by. */
  function Multiplier(size: nat): real
    requires size >= 1
  {
    -2.0 / size as real
  }

  /** The value added to every entry: the sum scaled by -2/N. */
  function HouseholderShift(x: seq<real>): real
    requires |x| >= 1
  {
    Sum(x) * Multiplier(|x|)
  }

  /** The Householder reflection of a vector: every entry shifted by the same value. */
  function Householder(x: seq<real>): (r: seq<real>)
    requires |x| >= 1
  {
    AddConst(x, HouseholderShift(x))
  }

  /** Householder::inPlace: accumulate the sum, scale it, add it to every slot. */
  method HouseholderInPlace(arr: array<real>, size: nat)
    requires 1 <= size <= arr.Length
    modifies arr
    ensures arr[..size] == Householder(old(arr[..size]))
    ensures arr[size..] == old(arr[size..])
  {
    ghost var x := arr[..size];
    var sum := 0.0;
    for i := 0 to size
      invariant sum == SumTo(x, i)
    {
      sum := sum + arr[i];
    }
    sum := sum * Multiplier(size);
    for i := 0 to size
      invariant forall k :: 0 <= k < i ==> arr[k] == x[k] + sum
      invariant forall k :: i <= k < size ==> arr[k] == x[k]
      invariant arr[size..] == old(arr[size..])
    {
      arr[i] := arr[i] + sum;
    }
    ShiftedIsHouseholder(x, arr[..size], sum);
  }

  lemma ShiftedIsHouseholder(x: seq<real>, y: seq<real>, shift: real)
    requires |x| >= 1 && |y| == |x|
    requires shift == HouseholderShift(x)
    requires forall k :: 0 <= k < |x| ==> y[k] == x[k] + shift
    ensures y == Householder(x)
  {
    assert forall k :: 0 <= k < |x| ==> y[k] == Householder(x)[k];
  }

  /** The outputs sum to the negated sum of the inputs. */
  lemma HouseholderNegatesSum(x: seq<real>)
    requires |x| >= 1
    ensures Sum(Householder(x)) == -Sum(x)
  {
    var k := HouseholderShift(x);
    SumAddConst(x, k);
    ShiftTimesSize(x);
  }

  /** N copies of the shift add up to -2 times the sum. */
  lemma ShiftTimesSize(x: seq<real>)
    requires |x| >= 1
    ensures |x| as real * HouseholderShift(x) == -2.0 * Sum(x)
  {
    var n, s := |x| as real, Sum(x);
    assert n * (-2.0 / n) == -2.0;
    assert n * (s * (-2.0 / n)) == s * (n * (-2.0 / n));
  }

  /** The reflection is an involution: applying it twice gives back the input. */
  lemma HouseholderInvolution(x: seq<real>)
    requires |x| >= 1
    ensures Householder(Householder(x)) == x
  {
    var y := Householder(x);
    HouseholderNegatesSum(x);
    var m := Multiplier(|x|);
    assert HouseholderShift(y) == -HouseholderShift(x) by {
      assert Sum(y) == -Sum(x);
      assert Sum(y) * m == -(Sum(x) * m);
    }
    assert forall i :: 0 <= i < |x| ==> Householder(y)[i] == x[i];
  }

  /** The reflection is orthogonal: the sum of squares is preserved. */
  lemma HouseholderPreservesEnergy(x: seq<real>)
    requires |x| >= 1
    ensures SumSq(Householder(x)) == SumSq(x)
  {
    var k := HouseholderShift(x);
    SumSqAddConst(x, k);
    ShiftTimesSize(x);
    ReflectionAlgebra(|x| as real, Sum(x), k);
  }

  lemma ReflectionAlgebra(n: real, s: real, k: real)
    requires n * k == -2.0 * s
    ensures 2.0 * k * s + n * (k * k) == 0.0
  {
    assert n * (k * k) == (n * k) * k;
  }

  /* ---------------------------------------------------------------- */
  /* Hadamard                                                         */
  /* ---------------------------------------------------------------- */

  predicate IsPowerOfTwo(n: nat)
    decreases n
  {
    if n <= 1 then n == 1 else n % 2 == 0 && IsPowerOfTwo(n / 2)
  }

  /**
   * Hadamard::recursiveUnscaled on a block x: sizes up to 1 are left alone;
   * otherwise both halves are transformed, then combined into sums (first
   * half) and differences (second half). For an odd size the last entry is
   * not touched at that level, as in the recursion over size/2.
   */
  function HadamardUnscaled(x: seq<real>): (r: seq<real>)
    ensures |r| == |x|
    decreases |x|
  {
    if |x| <= 1 then x
    else
      var h := |x| / 2;
      var a := HadamardUnscaled(x[..h]);
      var b := HadamardUnscaled(x[h..2 * h]);
      Add(a, b) + Sub(a, b) + x[2 * h..]
  }

  /** sqrt(1/size): positive, and its square is 1/size. */
  predicate IsScalingFactor(s: real, size: nat)
  {
    s > 0.0 && s * s * size as real == 1.0
  }

  /** Hadamard::inPlace: the butterfly followed by the scaling. */
  function Hadamard(x: seq<real>, scalingFactor: real): (r: seq<real>)
  {
    Scale(scalingFactor, HadamardUnscaled(x))
  }

  /** The whole buffer s with the block [start, start + size) replaced by its transform. */
  function WithBlockTransformed(s: seq<real>, start: nat, size: nat): (r: seq<real>)
    requires start + size <= |s|
    ensures |r| == |s|
  {
    s[..start] + HadamardUnscaled(s[start..start + size]) + s[start + size..]
  }

  /**
   * The whole buffer s after the combine loop over [start, start + 2h):
   * sums in the first half, differences in the second.
   */
  function WithBlockCombined(s: seq<real>, start: nat, h: nat): (r: seq<real>)
    requires start + 2 * h <= |s|
    ensures |r| == |s|
  {
    var a, b := s[start..start + h], s[start + h..start + 2 * h];
    s[..start] + Add(a, b) + Sub(a, b) + s[start + 2 * h..]
  }

  /** WithBlockTransformed spelled out; unfolding it by a call keeps proofs small. */
  lemma TransformedUnfold(s: seq<real>, start: nat, size: nat)
    requires start + size <= |s|
    ensures WithBlockTransformed(s, start, size) ==
      s[..start] + HadamardUnscaled(s[start..start + size]) + s[start + size..]
  {
  }

  /** WithBlockCombined spelled out. */
  lemma CombinedUnfold(s: seq<real>, start: nat, h: nat)
    requires start + 2 * h <= |s|
    ensures WithBlockCombined(s, start, h) ==
      s[..start] + Add(s[start..start + h], s[start + h..start + 2 * h])
      + Sub(s[start..start + h], s[start + h..start + 2 * h]) + s[start + 2 * h..]
  {
  }

  /**
   * Hadamard::recursiveUnscaled on data[start .. start + size]: the block
   * becomes its unscaled Hadamard transform and nothing else changes.
   */
  method RecursiveUnscaled(data: array<real>, start: nat, size: nat)
    requires start + size <= data.Length
    modifies data
    ensures data[..] == WithBlockTransformed(old(data[..]), start, size)
    decreases size
  {
    ghost var d0 := data[..];
    if size <= 1 {
      SmallBlockUnchanged(d0, start, size);
      return;
    }
    var h := size / 2;
    RecursiveUnscaled(data, start, h);
    RecursiveUnscaled(data, start + h, h);
    Combine(data, start, h);
    HalvesThenCombined(d0, start, h);
    BlockUnfolded(d0, start, size);
  }

  /** A block of size at most 1 is its own transform. */
  lemma SmallBlockUnchanged(s: seq<real>, start: nat, size: nat)
    requires start + size <= |s| && size <= 1
    ensures WithBlockTransformed(s, start, size) == s
  {
    TransformedUnfold(s, start, size);
    assert s[..start] + s[start..start + size] + s[start + size..] == s;
  }

  /** The combine loop of Hadamard::recursiveUnscaled over [start, start + 2h). */
  method Combine(data: array<real>, start: nat, h: nat)
    requires start + 2 * h <= data.Length
    modifies data
    ensures data[..] == WithBlockCombined(old(data[..]), start, h)
  {
    ghost var d := data[..];
    for i := 0 to h
      invariant forall j :: 0 <= j < data.Length ==> data[j] == CombinedAt(d, start, h, i, j)
    {
      var a := data[start + i];
      var b := data[start + i + h];
      data[start + i] := a + b;
      data[start + i + h] := a - b;
    }
    CombinedPointwise(data[..], d, start, h);
  }

  /** Entry j after the first i steps of the combine loop. */
  function CombinedAt(d: seq<real>, start: nat, h: nat, i: nat, j: nat): real
    requires start + 2 * h <= |d| && i <= h && j < |d|
  {
    if start <= j < start + i then d[j] + d[j + h]
    else if start + h <= j < start + h + i then d[j - h] - d[j]
    else d[j]
  }

  lemma CombinedPointwise(y: seq<real>, d: seq<real>, start: nat, h: nat)
    requires start + 2 * h <= |d| && |y| == |d|
    requires forall j :: 0 <= j < |y| ==> y[j] == CombinedAt(d, start, h, h, j)
    ensures y == WithBlockCombined(d, start, h)
  {
    forall j | 0 <= j < |y| ensures y[j] == WithBlockCombined(d, start, h)[j] {
      CombinedEntry(d, start, h, j);
    }
  }

  lemma CombinedEntry(d: seq<real>, start: nat, h: nat, j: nat)
    requires start + 2 * h <= |d| && j < |d|
    ensures WithBlockCombined(d, start, h)[j] == CombinedAt(d, start, h, h, j)
  {
    var a, b := d[start..start + h], d[start + h..start + 2 * h];
    FourPieceIndex(d[..start], Add(a, b), Sub(a, b), d[start + 2 * h..], j);
  }

  /** Indexing into a concatenation of four pieces. */
  lemma FourPieceIndex(p: seq<real>, s: seq<real>, t: seq<real>, q: seq<real>, j: nat)
    requires j < |p| + |s| + |t| + |q|
    ensures (p + s + t + q)[j] ==
      if j < |p| then p[j]
      else if j < |p| + |s| then s[j - |p|]
      else if j < |p| + |s| + |t| then t[j - |p| - |s|]
      else q[j - |p| - |s| - |t|]
  {
  }

  /**
   * The buffer s with [start, start + 2h) replaced by the sums and the
   * differences of the transforms of its two halves.
   */
  function ButterflyLayout(s: seq<real>, start: nat, h: nat): (r: seq<real>)
    requires start + 2 * h <= |s|
    ensures |r| == |s|
  {
    var xl, xh := s[start..start + h], s[start + h..start + 2 * h];
    assert |xl| == h && |xh| == h;
    var a, b := HadamardUnscaled(xl), HadamardUnscaled(xh);
    s[..start] + Add(a, b) + Sub(a, b) + s[start + 2 * h..]
  }

  /** The two recursive calls followed by the combine loop. */
  lemma HalvesThenCombined(d0: seq<real>, start: nat, h: nat)
    requires start + 2 * h <= |d0|
    ensures WithBlockCombined(WithBlockTransformed(WithBlockTransformed(d0, start, h), start + h, h), start, h)
         == ButterflyLayout(d0, start, h)
  {
    var p, rest := d0[..start], d0[start + 2 * h..];
    var xl, xh := d0[start..start + h], d0[start + h..start + 2 * h];
    var a, b := HadamardUnscaled(xl), HadamardUnscaled(xh);
    assert |a| == h && |b| == h by {
      assert |xl| == h && |xh| == h;
    }
    var d2 := WithBlockTransformed(WithBlockTransformed(d0, start, h), start + h, h);
    assert d2 == p + a + b + rest by {
      BothHalvesTransformed(d0, start, h);
    }
    CombineFourPieces(d2, p, a, b, rest, start, h);
    LayoutUnfold(d0, start, h, a, b);
  }

  /** ButterflyLayout spelled out, with the halves' transforms named. */
  lemma LayoutUnfold(s: seq<real>, start: nat, h: nat, a: seq<real>, b: seq<real>)
    requires start + 2 * h <= |s|
    requires a == HadamardUnscaled(s[start..start + h]) && b == HadamardUnscaled(s[start + h..start + 2 * h])
    ensures |a| == |b| && ButterflyLayout(s, start, h) == s[..start] + Add(a, b) + Sub(a, b) + s[start + 2 * h..]
  {
  }

  /** Transforming [start, start + h) and then [start + h, start + 2h) transforms each half. */
  lemma BothHalvesTransformed(d0: seq<real>, start: nat, h: nat)
    requires start + 2 * h <= |d0|
    ensures WithBlockTransformed(WithBlockTransformed(d0, start, h), start + h, h) ==
      d0[..start] + HadamardUnscaled(d0[start..start + h]) + HadamardUnscaled(d0[start + h..start + 2 * h])
      + d0[start + 2 * h..]
  {
    var p, xh, rest := d0[..start], d0[start + h..start + 2 * h], d0[start + 2 * h..];
    var a := HadamardUnscaled(d0[start..start + h]);
    SplitTail(d0, start + h, start + 2 * h);
    var d1 := WithBlockTransformed(d0, start, h);
    TransformedUnfold(d0, start, h);
    assert d1 == p + a + xh + rest;
    FourPieces(d1, p, a, xh, rest, start, h);
    TransformedUnfold(d1, start + h, h);
  }

  /** The combine step on a buffer laid out as p, a, b, rest. */
  lemma CombineFourPieces(d: seq<real>, p: seq<real>, a: seq<real>, b: seq<real>, rest: seq<real>, n: nat, h: nat)
    requires d == p + a + b + rest && n == |p| && h == |a| == |b|
    ensures WithBlockCombined(d, n, h) == p + Add(a, b) + Sub(a, b) + rest
  {
    CombinedUnfold(d, n, h);
    FourPieces(d, p, a, b, rest, n, h);
  }

  /** The transform of the block, one level unfolded, in place in the buffer. */
  lemma BlockUnfolded(d0: seq<real>, start: nat, size: nat)
    requires start + size <= |d0| && size > 1
    ensures WithBlockTransformed(d0, start, size) == ButterflyLayout(d0, start, size / 2)
  {
    var h := size / 2;
    var x := d0[start..start + size];
    var xl, xh := d0[start..start + h], d0[start + h..start + 2 * h];
    assert |xl| == h && |xh| == h;
    var a, b := HadamardUnscaled(xl), HadamardUnscaled(xh);
    assert WithBlockTransformed(d0, start, size) == d0[..start] + (Add(a, b) + Sub(a, b) + x[2 * h..]) + d0[start + size..] by {
      TransformedUnfold(d0, start, size);
      BlockSlices(d0, start, size, h);
      UnscaledStep(x, h, xl, xh);
    }
    assert x[2 * h..] + d0[start + size..] == d0[start + 2 * h..] by {
      BlockSlices(d0, start, size, h);
    }
    Associate(d0[..start], Add(a, b), Sub(a, b), x[2 * h..], d0[start + size..]);
    LayoutUnfold(d0, start, h, a, b);
  }

  /** How the halves of a block and the tail after them sit inside the buffer. */
  lemma BlockSlices(d: seq<real>, start: nat, size: nat, h: nat)
    requires start + size <= |d| && h == size / 2
    ensures d[start..start + size][..h] == d[start..start + h]
    ensures d[start..start + size][h..2 * h] == d[start + h..start + 2 * h]
    ensures d[start + h..] == d[start + h..start + 2 * h] + d[start + 2 * h..]
    ensures d[start + 2 * h..] == d[start..start + size][2 * h..] + d[start + size..]
  {
    var x := d[start..start + size];
    forall k | 0 <= k < h ensures x[..h][k] == d[start..start + h][k] && x[h..2 * h][k] == d[start + h..start + 2 * h][k] {
    }
    SplitTail(d, start + h, start + 2 * h);
    SplitTail(d, start + 2 * h, start + size);
    assert x[2 * h..] == d[start + 2 * h..start + size];
  }

  /** A suffix is the slice up to j followed by the suffix from j. */
  lemma SplitTail(d: seq<real>, i: nat, j: nat)
    requires i <= j <= |d|
    ensures d[i..] == d[i..j] + d[j..]
  {
    forall k | 0 <= k < |d| - i ensures d[i..][k] == (d[i..j] + d[j..])[k] {
    }
  }

  /** The pieces of a four-way concatenation p, a, b, q with |a| == |b| == h, read back by slicing. */
  lemma FourPieces(r: seq<real>, p: seq<real>, a: seq<real>, b: seq<real>, q: seq<real>, n: nat, h: nat)
    requires r == p + a + b + q && n == |p| && h == |a| == |b|
    ensures r[..n] == p && r[n..n + h] == a && r[n + h..n + 2 * h] == b && r[n + 2 * h..] == q
    ensures r[..n + h] == p + a
  {
  }

  lemma Associate(p: seq<real>, s: seq<real>, t: seq<real>, u: seq<real>, v: seq<real>)
    ensures p + (s + t + u) + v == p + s + t + (u + v)
  {
  }

  /** One unfolding of HadamardUnscaled, with the halves named. */
  lemma UnscaledStep(x: seq<real>, h: nat, xl: seq<real>, xh: seq<real>)
    requires |x| > 1 && h == |x| / 2 && xl == x[..h] && xh == x[h..2 * h]
    ensures HadamardUnscaled(x) ==
      Add(HadamardUnscaled(xl), HadamardUnscaled(xh)) + Sub(HadamardUnscaled(xl), HadamardUnscaled(xh))
      + x[2 * h..]
  {
  }

  /** Hadamard::inPlace on data[..size]: the butterfly, then every slot scaled. */
  method HadamardInPlace(data: array<real>, size: nat, scalingFactor: real)
    requires size <= data.Length
    modifies data
    ensures data[..size] == Hadamard(old(data[..size]), scalingFactor)
    ensures data[size..] == old(data[size..])
  {
    ghost var d0 := data[..];
    RecursiveUnscaled(data, 0, size);
    PrefixTransformed(d0, size);
    ScalePrefix(data, size, scalingFactor);
  }

  /** The scaling loop of Hadamard::inPlace: data[c] *= scalingFactor for c < size. */
  method ScalePrefix(data: array<real>, size: nat, scalingFactor: real)
    requires size <= data.Length
    modifies data
    ensures data[..size] == Scale(scalingFactor, old(data[..size]))
    ensures data[size..] == old(data[size..])
  {
    ghost var d1 := data[..];
    for c := 0 to size
      invariant forall j :: 0 <= j < data.Length ==> data[j] == if j < c then scalingFactor * d1[j] else d1[j]
    {
      data[c] := data[c] * scalingFactor;
    }
    ScaledPrefix(data[..], d1, scalingFactor, size);
  }

  /** The buffer after the scaling loop: the first size slots scaled, the rest untouched. */
  lemma ScaledPrefix(d2: seq<real>, d1: seq<real>, c: real, size: nat)
    requires size <= |d1| == |d2|
    requires forall j :: 0 <= j < |d2| ==> d2[j] == if j < size then c * d1[j] else d1[j]
    ensures d2[..size] == Scale(c, d1[..size]) && d2[size..] == d1[size..]
  {
    assert forall j :: 0 <= j < size ==> d2[..size][j] == Scale(c, d1[..size])[j];
    assert forall j :: 0 <= j < |d2| - size ==> d2[size..][j] == d1[size..][j];
  }

  /** Transforming the block [0, size) leaves the transformed prefix followed by the old suffix. */
  lemma PrefixTransformed(d0: seq<real>, size: nat)
    requires size <= |d0|
    ensures WithBlockTransformed(d0, 0, size)[..size] == HadamardUnscaled(d0[..size])
    ensures WithBlockTransformed(d0, 0, size)[size..] == d0[size..]
  {
    BlockAtStart(d0, size);
    TwoPieces(WithBlockTransformed(d0, 0, size), HadamardUnscaled(d0[..size]), d0[size..], size);
  }

  /** The block [0, size) transformed is the transform of the prefix, then the old suffix. */
  lemma BlockAtStart(d0: seq<real>, size: nat)
    requires size <= |d0|
    ensures |HadamardUnscaled(d0[..size])| == size
    ensures WithBlockTransformed(d0, 0, size) == HadamardUnscaled(d0[..size]) + d0[size..]
  {
    assert d0[0..size] == d0[..size];
    assert |d0[..size]| == size;
    TransformedUnfold(d0, 0, size);
    assert d0[..0] == [];
  }

  lemma TwoPieces(r: seq<real>, m: seq<real>, q: seq<real>, n: nat)
    requires r == m + q && n == |m|
    ensures r[..n] == m && r[n..] == q
  {
  }

  /* ---------------------------------------------------------------- */
  /* Algebra of the Hadamard transform                                */
  /* ---------------------------------------------------------------- */

  /** A power of two above 1 is twice a power of two. */
  lemma PowerOfTwoHalves(n: nat)
    requires IsPowerOfTwo(n) && n > 1
    ensures n == 2 * (n / 2) && n / 2 >= 1 && IsPowerOfTwo(n / 2)
  {
  }

  /** The unscaled transform is homogeneous: scaling the input scales the output. */
  lemma {:induction false} HadamardHomogeneous(c: real, x: seq<real>)
    ensures HadamardUnscaled(Scale(c, x)) == Scale(c, HadamardUnscaled(x))
    decreases |x|
  {
    if |x| > 1 {
      var h := |x| / 2;
      var y := Scale(c, x);
      var xl, xh, xr := x[..h], x[h..2 * h], x[2 * h..];
      assert |xl| == h && |xh| == h;
      ScaleTake(c, x, h);
      ScaleSlice(c, x, h, 2 * h);
      ScaleDrop(c, x, 2 * h);
      HadamardHomogeneous(c, xl);
      HadamardHomogeneous(c, xh);
      var a, b := HadamardUnscaled(xl), HadamardUnscaled(xh);
      UnscaledStep(x, h, xl, xh);
      UnscaledStep(y, h, Scale(c, xl), Scale(c, xh));
      ScaleDistributes(c, a, b);
      ScaleConcat(c, Add(a, b), Sub(a, b));
      ScaleConcat(c, Add(a, b) + Sub(a, b), xr);
    }
  }

  /** The unscaled transform is additive. */
  lemma {:induction false} HadamardAdditive(u: seq<real>, v: seq<real>)
    requires |u| == |v|
    ensures HadamardUnscaled(Add(u, v)) == Add(HadamardUnscaled(u), HadamardUnscaled(v))
    decreases |u|
  {
    if |u| > 1 {
      var h := |u| / 2;
      var w := Add(u, v);
      var ul, uh, ur := u[..h], u[h..2 * h], u[2 * h..];
      var vl, vh, vr := v[..h], v[h..2 * h], v[2 * h..];
      assert |ul| == h && |uh| == h && |vl| == h && |vh| == h;
      AddTake(u, v, h);
      AddSlice(u, v, h, 2 * h);
      AddDrop(u, v, 2 * h);
      HadamardAdditive(ul, vl);
      HadamardAdditive(uh, vh);
      var au, bu := HadamardUnscaled(ul), HadamardUnscaled(uh);
      var av, bv := HadamardUnscaled(vl), HadamardUnscaled(vh);
      UnscaledStep(u, h, ul, uh);
      UnscaledStep(v, h, vl, vh);
      UnscaledStep(w, h, Add(ul, vl), Add(uh, vh));
      Regroup(au, av, bu, bv);
      AddConcat(Add(au, bu), Sub(au, bu), Add(av, bv), Sub(av, bv));
      AddConcat(Add(au, bu) + Sub(au, bu), ur, Add(av, bv) + Sub(av, bv), vr);
    }
  }

  /** The unscaled transform maps differences to differences. */
  lemma {:induction false} HadamardSubtractive(u: seq<real>, v: seq<real>)
    requires |u| == |v|
    ensures HadamardUnscaled(Sub(u, v)) == Sub(HadamardUnscaled(u), HadamardUnscaled(v))
  {
    SubIsAddNegated(u, v);
    HadamardAdditive(u, Scale(-1.0, v));
    HadamardHomogeneous(-1.0, v);
    SubIsAddNegated(HadamardUnscaled(u), HadamardUnscaled(v));
  }

  /** A block of even size has nothing left over after its two halves. */
  lemma EvenSplit(x: seq<real>, h: nat)
    requires |x| == 2 * h
    ensures x[2 * h..] == [] && x == x[..h] + x[h..2 * h]
  {
  }

  /**
   * For a power-of-two size N the unscaled transform applied twice multiplies
   * every entry by N (H * H == N * I).
   */
  lemma {:induction false} HadamardTwice(x: seq<real>)
    requires IsPowerOfTwo(|x|)
    ensures HadamardUnscaled(HadamardUnscaled(x)) == Scale(|x| as real, x)
    decreases |x|
  {
    if |x| == 1 {
      ScaleOne(x);
    } else {
      PowerOfTwoHalves(|x|);
      var h := |x| / 2;
      var xl, xh := x[..h], x[h..2 * h];
      assert |xl| == h && |xh| == h;
      EvenSplit(x, h);
      var a, b := HadamardUnscaled(xl), HadamardUnscaled(xh);
      var y := Add(a, b) + Sub(a, b);
      assert HadamardUnscaled(x) == y by {
        UnscaledStep(x, h, xl, xh);
      }
      var p, q := Scale(h as real, xl), Scale(h as real, xh);
      assert HadamardUnscaled(Add(a, b)) == Add(p, q) && HadamardUnscaled(Sub(a, b)) == Sub(p, q) by {
        HadamardTwice(xl);
        HadamardTwice(xh);
        HadamardAdditive(a, b);
        HadamardSubtractive(a, b);
      }
      assert HadamardUnscaled(y) == Add(Add(p, q), Sub(p, q)) + Sub(Add(p, q), Sub(p, q)) by {
        TwoPieces(y, Add(a, b), Sub(a, b), h);
        UnscaledStep(y, h, Add(a, b), Sub(a, b));
        EvenSplit(y, h);
      }
      ButterflyTwiceScaled(x, xl, xh, p, q);
    }
  }

  /** The outer butterfly over two halves already multiplied by h gives 2h times the block. */
  lemma ButterflyTwiceScaled(x: seq<real>, xl: seq<real>, xh: seq<real>, p: seq<real>, q: seq<real>)
    requires x == xl + xh && |xl| == |xh|
    requires p == Scale(|xl| as real, xl) && q == Scale(|xh| as real, xh)
    ensures Add(Add(p, q), Sub(p, q)) + Sub(Add(p, q), Sub(p, q)) == Scale(|x| as real, x)
  {
    var h := |xl| as real;
    ButterflyTwice(p, q);
    ScaleScale(2.0, h, xl);
    ScaleScale(2.0, h, xh);
    assert 2.0 * h == |x| as real;
    ScaleConcat(|x| as real, xl, xh);
  }

  /** Two energy identities combine into the doubling of the sizes. */
  lemma EnergyAlgebra(el: real, eh: real, h: real, ta: real, tb: real, sa: real, sd: real, n: real, e: real)
    requires ta == h * el && tb == h * eh
    requires sa + sd == 2.0 * ta + 2.0 * tb
    requires n == 2.0 * h && e == el + eh
    ensures sa + sd == n * e
  {
  }

  /** For a power-of-two size N the unscaled transform multiplies the sum of squares by N. */
  lemma {:induction false} HadamardEnergy(x: seq<real>)
    requires IsPowerOfTwo(|x|)
    ensures SumSq(HadamardUnscaled(x)) == |x| as real * SumSq(x)
    decreases |x|
  {
    if |x| > 1 {
      PowerOfTwoHalves(|x|);
      var h := |x| / 2;
      var xl, xh := x[..h], x[h..2 * h];
      assert |xl| == h && |xh| == h;
      EvenSplit(x, h);
      var a, b := HadamardUnscaled(xl), HadamardUnscaled(xh);
      assert HadamardUnscaled(x) == Add(a, b) + Sub(a, b) by {
        UnscaledStep(x, h, xl, xh);
      }
      HadamardEnergy(xl);
      HadamardEnergy(xh);
      ButterflyEnergy(x, xl, xh, a, b);
    }
  }

  /** One butterfly level doubles the energy the two half-transforms carry. */
  lemma ButterflyEnergy(x: seq<real>, xl: seq<real>, xh: seq<real>, a: seq<real>, b: seq<real>)
    requires x == xl + xh && |xl| == |xh| == |a| == |b|
    requires SumSq(a) == |xl| as real * SumSq(xl) && SumSq(b) == |xh| as real * SumSq(xh)
    ensures SumSq(Add(a, b) + Sub(a, b)) == |x| as real * SumSq(x)
  {
    SumAppend(Add(a, b), Sub(a, b));
    Parallelogram(a, b);
    SumAppend(xl, xh);
    EnergyAlgebra(SumSq(xl), SumSq(xh), |xl| as real, SumSq(a), SumSq(b), SumSq(Add(a, b)), SumSq(Sub(a, b)),
      |x| as real, SumSq(x));
  }

  /** For a power-of-two size the first output of the unscaled transform is the sum of the inputs. */
  lemma {:induction false} HadamardFirstIsSum(x: seq<real>)
    requires IsPowerOfTwo(|x|)
    ensures HadamardUnscaled(x)[0] == Sum(x)
    decreases |x|
  {
    if |x| == 1 {
      assert Sum(x) == SumTo(x, 0) + x[0];
    } else {
      PowerOfTwoHalves(|x|);
      var h := |x| / 2;
      var xl, xh := x[..h], x[h..2 * h];
      assert |xl| == h && |xh| == h;
      var a, b := HadamardUnscaled(xl), HadamardUnscaled(xh);
      assert HadamardUnscaled(x)[0] == a[0] + b[0] by {
        UnscaledStep(x, h, xl, xh);
        ButterflyFirst(a, b, x[2 * h..]);
      }
      assert Sum(x) == Sum(xl) + Sum(xh) by {
        EvenSplit(x, h);
        SumAppend(xl, xh);
      }
      HadamardFirstIsSum(xl);
      HadamardFirstIsSum(xh);
    }
  }

  lemma ButterflyFirst(a: seq<real>, b: seq<real>, r: seq<real>)
    requires |a| == |b| >= 1
    ensures (Add(a, b) + Sub(a, b) + r)[0] == a[0] + b[0]
  {
  }

  /**
   * Hadamard::inPlace applied twice restores the input: with s * s * N == 1,
   * (s H)(s H) == s * s * N * I == I.
   */
  lemma {:induction false} HadamardInvolution(x: seq<real>, scalingFactor: real)
    requires IsPowerOfTwo(|x|) && IsScalingFactor(scalingFactor, |x|)
    ensures Hadamard(Hadamard(x, scalingFactor), scalingFactor) == x
  {
    var s, y := scalingFactor, HadamardUnscaled(x);
    assert HadamardUnscaled(Scale(s, y)) == Scale(s, Scale(|x| as real, x)) by {
      HadamardHomogeneous(s, y);
      HadamardTwice(x);
    }
    ScalingUndone(s, x);
  }

  /** Scaling twice by sqrt(1/N) undoes a gain of N. */
  lemma ScalingUndone(s: real, x: seq<real>)
    requires IsScalingFactor(s, |x|)
    ensures Scale(s, Scale(s, Scale(|x| as real, x))) == x
  {
    var n := |x| as real;
    var m := s * n;
    var c := s * m;
    assert c == 1.0 by {
      assert s * (s * n) == (s * s) * n;
    }
    calc {
      Scale(s, Scale(s, Scale(n, x)));
      { ScaleScale(s, n, x); }
      Scale(s, Scale(m, x));
      { ScaleScale(s, m, x); }
      Scale(c, x);
      { ScaleOne(x); }
      x;
    }
  }

  /** Hadamard::inPlace preserves the sum of squares (it is orthogonal). */
  lemma {:induction false} HadamardPreservesEnergy(x: seq<real>, scalingFactor: real)
    requires IsPowerOfTwo(|x|) && IsScalingFactor(scalingFactor, |x|)
    ensures SumSq(Hadamard(x, scalingFactor)) == SumSq(x)
  {
    HadamardEnergy(x);
    ScaledEnergy(scalingFactor, x, HadamardUnscaled(x));
  }

  /** Scaling by sqrt(1/N) undoes a gain of N in the sum of squares. */
  lemma ScaledEnergy(s: real, x: seq<real>, y: seq<real>)
    requires IsScalingFactor(s, |x|) && SumSq(y) == |x| as real * SumSq(x)
    ensures SumSq(Scale(s, y)) == SumSq(x)
  {
    SumSqScale(s, y);
    var n, e := |x| as real, SumSq(x);
    calc {
      s * s * (n * e);
      (s * s * n) * e;
    }
  }
}
