/**
 * Channel vectors: fixed-length sequences of real samples, with the
 * element-wise operations the mixing matrices and the feedback networks
 * are built from, and the algebra the proofs about them need.
 *
 * Sums are taken over a prefix given by its length, SumTo(s, n), so that
 * unfolding a sum never builds new sequence values.
 */
module Vectors {

  /** Sum of the first n entries, accumulated left to right. */
  function SumTo(s: seq<real>, n: nat): real
    requires n <= |s|
  {
    if n == 0 then 0.0 else SumTo(s, n - 1) + s[n - 1]
  }

  /** Sum of squares of the first n entries. */
  function SumSqTo(s: seq<real>, n: nat): real
    requires n <= |s|
  {
    if n == 0 then 0.0 else SumSqTo(s, n - 1) + s[n - 1] * s[n - 1]
  }

  /** Sum of all entries. */
  function Sum(s: seq<real>): real
  {
    SumTo(s, |s|)
  }

  /** Sum of squares of all entries (the energy of a channel vector). */
  function SumSq(s: seq<real>): real
  {
    SumSqTo(s, |s|)
  }

  function Zeros(n: nat): (r: seq<real>)
    ensures |r| == n && forall i :: 0 <= i < n ==> r[i] == 0.0
  {
    seq(n, _ => 0.0)
  }

  function Add(u: seq<real>, v: seq<real>): (r: seq<real>)
    requires |u| == |v|
    ensures |r| == |u| && forall i :: 0 <= i < |u| ==> r[i] == u[i] + v[i]
  {
    seq(|u|, i requires 0 <= i < |u| => u[i] + v[i])
  }

  function Sub(u: seq<real>, v: seq<real>): (r: seq<real>)
    requires |u| == |v|
    ensures |r| == |u| && forall i :: 0 <= i < |u| ==> r[i] == u[i] - v[i]
  {
    seq(|u|, i requires 0 <= i < |u| => u[i] - v[i])
  }

  function Scale(c: real, u: seq<real>): (r: seq<real>)
    ensures |r| == |u| && forall i :: 0 <= i < |u| ==> r[i] == c * u[i]
  {
    seq(|u|, i requires 0 <= i < |u| => c * u[i])
  }

  /** Adds the same scalar to every entry. */
  function AddConst(u: seq<real>, c: real): (r: seq<real>)
    ensures |r| == |u| && forall i :: 0 <= i < |u| ==> r[i] == u[i] + c
  {
    seq(|u|, i requires 0 <= i < |u| => u[i] + c)
  }

  /** A prefix sum only depends on the entries of that prefix. */
  lemma {:induction false} SumToSamePrefix(s: seq<real>, t: seq<real>, n: nat)
    requires n <= |s| && n <= |t|
    requires forall i :: 0 <= i < n ==> s[i] == t[i]
    ensures SumTo(s, n) == SumTo(t, n)
    ensures SumSqTo(s, n) == SumSqTo(t, n)
  {
    if n > 0 {
      SumToSamePrefix(s, t, n - 1);
    }
  }

  lemma {:induction false} SumToAppend(a: seq<real>, b: seq<real>, k: nat)
    requires k <= |b|
    ensures SumTo(a + b, |a| + k) == Sum(a) + SumTo(b, k)
    ensures SumSqTo(a + b, |a| + k) == SumSq(a) + SumSqTo(b, k)
  {
    if k == 0 {
      SumToSamePrefix(a + b, a, |a|);
    } else {
      SumToAppend(a, b, k - 1);
      assert (a + b)[|a| + k - 1] == b[k - 1];
    }
  }

  /** Sums split over a concatenation. */
  lemma SumAppend(a: seq<real>, b: seq<real>)
    ensures Sum(a + b) == Sum(a) + Sum(b)
    ensures SumSq(a + b) == SumSq(a) + SumSq(b)
  {
    SumToAppend(a, b, |b|);
  }

  /** Adding c to each of n entries adds n*c to the sum. */
  lemma {:induction false} SumToAddConst(u: seq<real>, c: real, n: nat)
    requires n <= |u|
    ensures SumTo(AddConst(u, c), n) == SumTo(u, n) + n as real * c
  {
    if n > 0 {
      SumToAddConst(u, c, n - 1);
    }
  }

  lemma SumAddConst(u: seq<real>, c: real)
    ensures Sum(AddConst(u, c)) == Sum(u) + |u| as real * c
  {
    SumToAddConst(u, c, |u|);
  }

  /** Expanding (u_i + c)^2 and summing. */
  lemma {:induction false} SumSqToAddConst(u: seq<real>, c: real, n: nat)
    requires n <= |u|
    ensures SumSqTo(AddConst(u, c), n) == SumSqTo(u, n) + 2.0 * c * SumTo(u, n) + n as real * (c * c)
  {
    if n > 0 {
      SumSqToAddConst(u, c, n - 1);
      ShiftedSquareStep(SumSqTo(u, n - 1), SumTo(u, n - 1), u[n - 1], c, (n - 1) as real);
    }
  }

  /** One step of the expansion above, over plain reals. */
  lemma ShiftedSquareStep(q: real, s: real, x: real, c: real, m: real)
    ensures (q + 2.0 * c * s + m * (c * c)) + (x + c) * (x + c)
         == (q + x * x) + 2.0 * c * (s + x) + (m + 1.0) * (c * c)
  {
    var cc := c * c;
    assert (x + c) * (x + c) == x * x + 2.0 * c * x + cc;
    assert 2.0 * c * (s + x) == 2.0 * c * s + 2.0 * c * x;
    assert (m + 1.0) * cc == m * cc + cc;
  }

  lemma SumSqAddConst(u: seq<real>, c: real)
    ensures SumSq(AddConst(u, c)) == SumSq(u) + 2.0 * c * Sum(u) + |u| as real * (c * c)
  {
    SumSqToAddConst(u, c, |u|);
  }

  lemma {:induction false} SumToAddVec(u: seq<real>, v: seq<real>, n: nat)
    requires |u| == |v| && n <= |u|
    ensures SumTo(Add(u, v), n) == SumTo(u, n) + SumTo(v, n)
  {
    if n > 0 {
      SumToAddVec(u, v, n - 1);
    }
  }

  lemma SumAddVec(u: seq<real>, v: seq<real>)
    requires |u| == |v|
    ensures Sum(Add(u, v)) == Sum(u) + Sum(v)
  {
    SumToAddVec(u, v, |u|);
  }

  lemma {:induction false} SumSqToScale(c: real, u: seq<real>, n: nat)
    requires n <= |u|
    ensures SumSqTo(Scale(c, u), n) == c * c * SumSqTo(u, n)
  {
    if n > 0 {
      SumSqToScale(c, u, n - 1);
      var x := u[n - 1];
      assert (c * x) * (c * x) == c * c * (x * x);
    }
  }

  lemma SumSqScale(c: real, u: seq<real>)
    ensures SumSq(Scale(c, u)) == c * c * SumSq(u)
  {
    SumSqToScale(c, u, |u|);
  }

  /** The parallelogram law, entry by entry: |u+v|^2 + |u-v|^2 = 2|u|^2 + 2|v|^2. */
  lemma {:induction false} ParallelogramTo(u: seq<real>, v: seq<real>, n: nat)
    requires |u| == |v| && n <= |u|
    ensures SumSqTo(Add(u, v), n) + SumSqTo(Sub(u, v), n) == 2.0 * SumSqTo(u, n) + 2.0 * SumSqTo(v, n)
  {
    if n > 0 {
      ParallelogramTo(u, v, n - 1);
      var a, b := u[n - 1], v[n - 1];
      assert (a + b) * (a + b) + (a - b) * (a - b) == 2.0 * (a * a) + 2.0 * (b * b);
    }
  }

  lemma Parallelogram(u: seq<real>, v: seq<real>)
    requires |u| == |v|
    ensures SumSq(Add(u, v)) + SumSq(Sub(u, v)) == 2.0 * SumSq(u) + 2.0 * SumSq(v)
  {
    ParallelogramTo(u, v, |u|);
  }

  /* Slices and concatenations commute with the element-wise operations. */

  lemma ScaleTake(c: real, x: seq<real>, i: nat)
    requires i <= |x|
    ensures Scale(c, x)[..i] == Scale(c, x[..i])
  {
    forall k | 0 <= k < i ensures Scale(c, x)[..i][k] == Scale(c, x[..i])[k] {
    }
  }

  lemma ScaleSlice(c: real, x: seq<real>, i: nat, j: nat)
    requires i <= j <= |x|
    ensures Scale(c, x)[i..j] == Scale(c, x[i..j])
  {
    forall k | 0 <= k < j - i ensures Scale(c, x)[i..j][k] == Scale(c, x[i..j])[k] {
    }
  }

  lemma ScaleDrop(c: real, x: seq<real>, i: nat)
    requires i <= |x|
    ensures Scale(c, x)[i..] == Scale(c, x[i..])
  {
    forall k | 0 <= k < |x| - i ensures Scale(c, x)[i..][k] == Scale(c, x[i..])[k] {
    }
  }

  lemma ScaleConcat(c: real, p: seq<real>, q: seq<real>)
    ensures Scale(c, p + q) == Scale(c, p) + Scale(c, q)
  {
    forall i | 0 <= i < |p| + |q| ensures Scale(c, p + q)[i] == (Scale(c, p) + Scale(c, q))[i] {
      if i < |p| {
      } else {
      }
    }
  }

  lemma AddTake(u: seq<real>, v: seq<real>, i: nat)
    requires |u| == |v| && i <= |u|
    ensures Add(u, v)[..i] == Add(u[..i], v[..i])
  {
    forall k | 0 <= k < i ensures Add(u, v)[..i][k] == Add(u[..i], v[..i])[k] {
    }
  }

  lemma AddSlice(u: seq<real>, v: seq<real>, i: nat, j: nat)
    requires |u| == |v| && i <= j <= |u|
    ensures Add(u, v)[i..j] == Add(u[i..j], v[i..j])
  {
    forall k | 0 <= k < j - i ensures Add(u, v)[i..j][k] == Add(u[i..j], v[i..j])[k] {
    }
  }

  lemma AddDrop(u: seq<real>, v: seq<real>, i: nat)
    requires |u| == |v| && i <= |u|
    ensures Add(u, v)[i..] == Add(u[i..], v[i..])
  {
    forall k | 0 <= k < |u| - i ensures Add(u, v)[i..][k] == Add(u[i..], v[i..])[k] {
    }
  }

  lemma AddConcat(p1: seq<real>, p2: seq<real>, q1: seq<real>, q2: seq<real>)
    requires |p1| == |q1| && |p2| == |q2|
    ensures Add(p1 + p2, q1 + q2) == Add(p1, q1) + Add(p2, q2)
  {
    forall i | 0 <= i < |p1| + |p2| ensures Add(p1 + p2, q1 + q2)[i] == (Add(p1, q1) + Add(p2, q2))[i] {
      if i < |p1| {
      } else {
      }
    }
  }

  /* Pointwise algebra of the element-wise operations. */

  lemma ScaleDistributes(c: real, a: seq<real>, b: seq<real>)
    requires |a| == |b|
    ensures Add(Scale(c, a), Scale(c, b)) == Scale(c, Add(a, b))
    ensures Sub(Scale(c, a), Scale(c, b)) == Scale(c, Sub(a, b))
  {
    forall i | 0 <= i < |a|
      ensures Add(Scale(c, a), Scale(c, b))[i] == Scale(c, Add(a, b))[i]
      ensures Sub(Scale(c, a), Scale(c, b))[i] == Scale(c, Sub(a, b))[i]
    {
      Distributes(c, a[i], b[i]);
    }
  }

  lemma Distributes(c: real, a: real, b: real)
    ensures c * a + c * b == c * (a + b) && c * a - c * b == c * (a - b)
  {
  }

  lemma ScaleScale(c: real, d: real, u: seq<real>)
    ensures Scale(c, Scale(d, u)) == Scale(c * d, u)
  {
    forall i | 0 <= i < |u| ensures Scale(c, Scale(d, u))[i] == Scale(c * d, u)[i] {
      assert c * (d * u[i]) == (c * d) * u[i];
    }
  }

  lemma ScaleOne(u: seq<real>)
    ensures Scale(1.0, u) == u
  {
    assert forall i :: 0 <= i < |u| ==> Scale(1.0, u)[i] == u[i];
  }

  /** Subtracting v is adding v scaled by -1. */
  lemma SubIsAddNegated(u: seq<real>, v: seq<real>)
    requires |u| == |v|
    ensures Sub(u, v) == Add(u, Scale(-1.0, v))
  {
    assert forall i :: 0 <= i < |u| ==> Sub(u, v)[i] == Add(u, Scale(-1.0, v))[i];
  }

  /** Sums and differences of sums and differences regroup. */
  lemma Regroup(a: seq<real>, b: seq<real>, c: seq<real>, d: seq<real>)
    requires |a| == |b| == |c| == |d|
    ensures Add(Add(a, b), Add(c, d)) == Add(Add(a, c), Add(b, d))
    ensures Sub(Add(a, b), Add(c, d)) == Add(Sub(a, c), Sub(b, d))
  {
    assert forall i :: 0 <= i < |a| ==> Add(Add(a, b), Add(c, d))[i] == Add(Add(a, c), Add(b, d))[i];
    assert forall i :: 0 <= i < |a| ==> Sub(Add(a, b), Add(c, d))[i] == Add(Sub(a, c), Sub(b, d))[i];
  }

  /** The butterfly applied to its own outputs doubles its inputs. */
  lemma ButterflyTwice(p: seq<real>, q: seq<real>)
    requires |p| == |q|
    ensures Add(Add(p, q), Sub(p, q)) == Scale(2.0, p)
    ensures Sub(Add(p, q), Sub(p, q)) == Scale(2.0, q)
  {
    assert forall i :: 0 <= i < |p| ==> Add(Add(p, q), Sub(p, q))[i] == Scale(2.0, p)[i];
    assert forall i :: 0 <= i < |p| ==> Sub(Add(p, q), Sub(p, q))[i] == Scale(2.0, q)[i];
  }
}
