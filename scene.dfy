/** Surface (re)generation as the program runs it at start-up and on the
    'i' key: the surface first, then its normals from the new surface.
 */
module Scene {

  import opened Surface
  import opened Normals

  /** Points and normals after one regeneration.  The points depend only on
      the first 2 * WAVES draws, so the same random stream gives the same
      points; a point whose tangents are degenerate keeps the normal left by
      the previous surface. */
  method Regenerate<V>(P: array2<V>, N: array2<V>, size: int, draws: seq<int>,
                       lattice: (int, int) -> V, ripple: (V, Wave, int, int) -> V,
                       nonDegenerate: Stencil<V> -> bool, normal: Stencil<V> -> V)
    returns (used: nat)
    requires size >= 1
    requires P.Length0 == size + 1 && P.Length1 == size + 1
    requires N.Length0 == size + 1 && N.Length1 == size + 1
    requires P != N
    requires |draws| >= 2 * WAVES
    requires forall k :: 0 <= k < |draws| ==> draws[k] >= 0
    modifies P, N
    ensures used == 2 * WAVES
    ensures forall i, j :: 0 <= i <= size && 0 <= j <= size ==>
              P[i, j] == Height(Waves(draws[..used], size), i, j, lattice, ripple)
    ensures forall i, j :: 0 <= i <= size && 0 <= j <= size ==>
              N[i, j] == if nonDegenerate(StencilAt(P, size, i, j)) then normal(StencilAt(P, size, i, j)) else old(N[i, j])
  {
    used := InitSurface(P, size, draws, lattice, ripple);
    WavesUseFirstDraws(draws, size);
    InitNormals(P, N, size, nonDegenerate, normal);
  }
}
