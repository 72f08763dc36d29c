/** The score of two embeddings: their dot product, which for vectors of unit length is the
    cosine of the angle between them. */
module Similarities {

  function Similarity(a: seq<real>, b: seq<real>): real
    requires |a| == |b|
  {
    if a == [] then 0.0 else Similarity(a[..|a| - 1], b[..|b| - 1]) + a[|a| - 1] * b[|b| - 1]
  }

  /** The loop over the components; vectors of different dimensions score zero. */
  method Dot(a: seq<real>, b: seq<real>) returns (dot: real)
    ensures dot == if |a| == |b| then Similarity(a, b) else 0.0
  {
    if |a| != |b| { return 0.0; }
    dot := 0.0;
    for i := 0 to |a|
      invariant dot == Similarity(a[..i], b[..i])
    {
      assert a[..i + 1][..i] == a[..i] && b[..i + 1][..i] == b[..i];
      dot := dot + a[i] * b[i];
    }
    assert a[..|a|] == a && b[..|b|] == b;
  }

  // ----- the laws that make it the dot product -----

  function Sum(a: seq<real>, b: seq<real>): (c: seq<real>)
    requires |a| == |b|
    ensures |c| == |a| && forall i :: 0 <= i < |a| ==> c[i] == a[i] + b[i]
  {
    seq(|a|, i requires 0 <= i < |a| => a[i] + b[i])
  }

  function Scaled(k: real, a: seq<real>): (c: seq<real>)
    ensures |c| == |a| && forall i :: 0 <= i < |a| ==> c[i] == k * a[i]
  {
    seq(|a|, i requires 0 <= i < |a| => k * a[i])
  }

  /** One in one component, zero in every other. */
  function Axis(n: nat, i: nat): (c: seq<real>)
    requires i < n
    ensures |c| == n && forall j :: 0 <= j < n ==> c[j] == if j == i then 1.0 else 0.0
  {
    seq(n, j => if j == i then 1.0 else 0.0)
  }

  lemma {:induction false} Symmetric(a: seq<real>, b: seq<real>)
    requires |a| == |b|
    ensures Similarity(a, b) == Similarity(b, a)
  {
    if a != [] { Symmetric(a[..|a| - 1], b[..|b| - 1]); }
  }

  lemma {:induction false} Additive(a: seq<real>, b: seq<real>, c: seq<real>)
    requires |a| == |b| == |c|
    ensures Similarity(Sum(a, b), c) == Similarity(a, c) + Similarity(b, c)
  {
    if a != [] {
      var n := |a| - 1;
      Additive(a[..n], b[..n], c[..n]);
      assert Sum(a, b)[..n] == Sum(a[..n], b[..n]);
      Distributes(a[n], b[n], c[n]);
    }
  }

  lemma Distributes(x: real, y: real, z: real)
    ensures (x + y) * z == x * z + y * z
  {
  }

  lemma Associates(x: real, y: real, z: real)
    ensures (x * y) * z == x * (y * z)
  {
  }

  lemma ScaledPrefix(k: real, a: seq<real>, n: nat)
    requires n <= |a|
    ensures Scaled(k, a)[..n] == Scaled(k, a[..n])
  {
    forall i | 0 <= i < n ensures Scaled(k, a)[..n][i] == Scaled(k, a[..n])[i] {
      assert a[..n][i] == a[i];
    }
  }

  lemma {:induction false} Homogeneous(k: real, a: seq<real>, b: seq<real>)
    requires |a| == |b|
    ensures Similarity(Scaled(k, a), b) == k * Similarity(a, b)
  {
    if a != [] {
      var n := |a| - 1;
      Homogeneous(k, a[..n], b[..n]);
      ScaledPrefix(k, a, n);
      Distributes(Similarity(a[..n], b[..n]), a[n] * b[n], k);
      Associates(k, a[n], b[n]);
    }
  }

  lemma {:induction false} ZeroScoresZero(a: seq<real>, b: seq<real>)
    requires |a| == |b| && forall i :: 0 <= i < |a| ==> a[i] == 0.0
    ensures Similarity(a, b) == 0.0
  {
    if a != [] { ZeroScoresZero(a[..|a| - 1], b[..|b| - 1]); }
  }

  /** Scored against an axis, a vector shows its component. */
  lemma {:induction false} AxisShowsComponent(i: nat, b: seq<real>)
    requires i < |b|
    ensures Similarity(Axis(|b|, i), b) == b[i]
  {
    var n := |b| - 1;
    var axis := Axis(|b|, i);
    if i < n {
      assert axis[..n] == Axis(n, i);
      AxisShowsComponent(i, b[..n]);
    } else {
      ZeroScoresZero(axis[..n], b[..n]);
    }
  }

  // ----- what the score of unit vectors means -----

  lemma {:induction false} SquareIsNonNegative(a: seq<real>)
    ensures Similarity(a, a) >= 0.0
    ensures Similarity(a, a) == 0.0 <==> forall i :: 0 <= i < |a| ==> a[i] == 0.0
  {
    if a != [] {
      var n := |a| - 1;
      var rest := Similarity(a[..n], a[..n]);
      var square := Square(a[n]);
      SquareIsNonNegative(a[..n]);
      assert Similarity(a, a) == rest + square;
      assert forall i :: 0 <= i < n ==> a[..n][i] == a[i];
    }
  }

  lemma PositiveProduct(x: real, y: real) returns (z: real)
    requires x > 0.0 && y > 0.0
    ensures z == x * y && z > 0.0
  {
    z := x * y;
  }

  lemma Square(x: real) returns (y: real)
    ensures y == x * x && (if x == 0.0 then y == 0.0 else y > 0.0)
  {
    if x == 0.0 {
      y := 0.0;
    } else if x > 0.0 {
      y := PositiveProduct(x, x);
    } else {
      y := PositiveProduct(-x, -x);
    }
  }

  function Difference(a: seq<real>, b: seq<real>): (c: seq<real>)
    requires |a| == |b|
    ensures |c| == |a| && forall i :: 0 <= i < |a| ==> c[i] == a[i] - b[i]
  {
    seq(|a|, i requires 0 <= i < |a| => a[i] - b[i])
  }

  lemma Subtractive(a: seq<real>, b: seq<real>, c: seq<real>)
    requires |a| == |b| == |c|
    ensures Similarity(Difference(a, b), c) == Similarity(a, c) - Similarity(b, c)
  {
    Additive(a, Scaled(-1.0, b), c);
    Homogeneous(-1.0, b, c);
    assert Difference(a, b) == Sum(a, Scaled(-1.0, b));
  }

  /** The square of a distance. */
  lemma DistanceOf(a: seq<real>, b: seq<real>)
    requires |a| == |b|
    ensures var d := Difference(a, b);
            Similarity(d, d) == Similarity(a, a) + Similarity(b, b) - 2.0 * Similarity(a, b)
  {
    var d := Difference(a, b);
    Subtractive(a, b, d);
    Symmetric(a, d);
    Symmetric(b, d);
    Subtractive(a, b, a);
    Subtractive(a, b, b);
    Symmetric(a, b);
  }

  /** Two unit vectors score at most one, and exactly one if and only if they are equal. */
  lemma UnitVectorsScore(a: seq<real>, b: seq<real>)
    requires |a| == |b| && Similarity(a, a) == 1.0 && Similarity(b, b) == 1.0
    ensures -1.0 <= Similarity(a, b) <= 1.0 && (Similarity(a, b) == 1.0 <==> a == b)
  {
    var d := Difference(a, b);
    DistanceOf(a, b);
    SquareIsNonNegative(d);
    var minus := Scaled(-1.0, b);
    Homogeneous(-1.0, b, minus);
    Symmetric(b, minus);
    Homogeneous(-1.0, b, b);
    Homogeneous(-1.0, b, a);
    Symmetric(a, minus);
    Symmetric(a, b);
    DistanceOf(a, minus);
    SquareIsNonNegative(Difference(a, minus));
    if Similarity(a, b) == 1.0 {
      assert forall i :: 0 <= i < |a| ==> d[i] == 0.0;
      assert forall i :: 0 <= i < |a| ==> a[i] == b[i];
    }
  }
}
