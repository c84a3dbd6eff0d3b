/** Surface normals from finite-difference tangents.

    At every grid point the tangent S along i and the tangent T along j are
    differences of two neighbouring points: forward differences inside the
    grid, backward differences at the last index, so that no point outside
    [0, size] is read.  The floating-point maths (differences, lengths, cross
    product, normalisation) is not modelled: the four points a normal is
    computed from are handed to an abstract `normal` function, and the test
    `|S| * |T| > 0` to an abstract `nonDegenerate` predicate.
 */
module Normals {

  /** The pair (hi, lo) of indices whose points a tangent is the difference
      hi - lo of, for index i on a grid of size `size`.  Both lie in
      [0, size], they are neighbours, one of them is i, and the difference is
      a forward one (lo == i) exactly when i is not the last index. */
  function TangentIndices(i: int, size: int): (r: (int, int))
    requires size >= 1 && 0 <= i <= size
    ensures 0 <= r.1 && r.0 <= size
    ensures r.0 == r.1 + 1
    ensures r.0 == i || r.1 == i
    ensures r.1 == i <==> i < size
  {
    if i < size then (i + 1, i) else (i, i - 1)
  }

  /** The four points the normal at one grid point is computed from:
      S = sHi - sLo along i and T = tHi - tLo along j. */
  datatype Stencil<V> = Stencil(sHi: V, sLo: V, tHi: V, tLo: V)

  /** The stencil of grid point (i, j). */
  function StencilAt<V>(P: array2<V>, size: int, i: int, j: int): Stencil<V>
    requires size >= 1 && P.Length0 == size + 1 && P.Length1 == size + 1
    requires 0 <= i <= size && 0 <= j <= size
    reads P
  {
    var (si, si') := TangentIndices(i, size);
    var (tj, tj') := TangentIndices(j, size);
    Stencil(P[si, j], P[si', j], P[i, tj], P[i, tj'])
  }

  /** Normal computation.  Every grid point whose stencil is non-degenerate
      gets the normal of its stencil; every other point keeps the normal it
      had, the grid P is not changed. */
  method InitNormals<V>(P: array2<V>, N: array2<V>, size: int,
                        nonDegenerate: Stencil<V> -> bool, normal: Stencil<V> -> V)
    requires size >= 1
    requires P.Length0 == size + 1 && P.Length1 == size + 1
    requires N.Length0 == size + 1 && N.Length1 == size + 1
    requires P != N
    modifies N
    ensures forall i, j :: 0 <= i <= size && 0 <= j <= size ==>
              N[i, j] == if nonDegenerate(StencilAt(P, size, i, j)) then normal(StencilAt(P, size, i, j)) else old(N[i, j])
  {
    for i := 0 to size + 1
      invariant forall a, b :: 0 <= a < i && 0 <= b <= size ==>
                  N[a, b] == if nonDegenerate(StencilAt(P, size, a, b)) then normal(StencilAt(P, size, a, b)) else old(N[a, b])
      invariant forall a, b :: i <= a <= size && 0 <= b <= size ==> N[a, b] == old(N[a, b])
    {
      for j := 0 to size + 1
        invariant forall a, b :: 0 <= a < i && 0 <= b <= size ==>
                    N[a, b] == if nonDegenerate(StencilAt(P, size, a, b)) then normal(StencilAt(P, size, a, b)) else old(N[a, b])
        invariant forall b :: 0 <= b < j ==>
                    N[i, b] == if nonDegenerate(StencilAt(P, size, i, b)) then normal(StencilAt(P, size, i, b)) else old(N[i, b])
        invariant forall a, b :: i <= a <= size && 0 <= b <= size && (a > i || b >= j) ==> N[a, b] == old(N[a, b])
      {
        var (si, si') := TangentIndices(i, size);
        var (tj, tj') := TangentIndices(j, size);
        var st := Stencil(P[si, j], P[si', j], P[i, tj], P[i, tj']);
        if nonDegenerate(st) {
          N[i, j] := normal(st);
        }
      }
    }
  }
}
