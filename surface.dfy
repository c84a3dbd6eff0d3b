/** The random wave surface: a (size+1) x (size+1) lattice of points to which
    up to ten sinusoidal ripples are added.

    The floating-point maths is not modelled: a grid point is of an abstract
    type V, the lattice position of (i, j) is given by `lattice`, and adding
    one ripple to a point by `ripple`.  What is modelled exactly is the
    integer part: which pseudo-random draws each wave consumes, the range of
    its frequencies, the test that decides whether it is applied, and which
    cells are written.
 */
module Surface {

  import opened Arith

  /** The number of wave passes. */
  const WAVES: nat := 10

  /** The frequencies of one wave along i and j. */
  datatype Wave = Wave(ri: int, rj: int)

  /** One frequency, `rand() % size / wave`, which C evaluates as
      `(rand() % size) / wave`; on non-negative operands C's truncating `/`
      and `%` agree with Dafny's Euclidean ones.  It lies in [0, (size-1)/wave]. */
  function Draw(r: int, size: int, wave: int): (v: int)
    requires r >= 0 && size >= 1 && wave >= 1
    ensures 0 <= v <= (size - 1) / wave
  {
    DivMonotone(r % size, size - 1, wave);
    r % size / wave
  }

  /** A wave is applied iff its squared length reaches 100. */
  predicate Applied(w: Wave) {
    w.ri * w.ri + w.rj * w.rj >= 100
  }

  /** The program tests `length >= 10` on length = sqrt(ri^2 + rj^2); for any
      non-negative root of ri^2 + rj^2 that test is the integer test `Applied`. */
  lemma LengthGuard(w: Wave, length: real)
    requires length >= 0.0 && length * length == (w.ri * w.ri + w.rj * w.rj) as real
    ensures length >= 10.0 <==> Applied(w)
  {
    if length >= 10.0 {
      assert length * length >= 10.0 * length >= 100.0;
    } else {
      assert length * length <= 10.0 * length < 100.0;
    }
  }

  /** A wave whose frequencies both lie in [0, 7] has squared length at most 98 and is skipped. */
  lemma SmallWaveSkipped(w: Wave)
    requires 0 <= w.ri <= 7 && 0 <= w.rj <= 7
    ensures !Applied(w)
  {
  }

  /** The ten waves of one surface generation.  Wave k (numbered k+1 in the
      program) takes draws 2k and 2k+1 of the random source, first its
      frequency along i, then along j; both lie in [0, (size-1)/(k+1)]. */
  function Waves(draws: seq<int>, size: int): (ws: seq<Wave>)
    requires size >= 1 && |draws| >= 2 * WAVES
    requires forall k :: 0 <= k < |draws| ==> draws[k] >= 0
    ensures |ws| == WAVES
    ensures forall k :: 0 <= k < WAVES ==>
              0 <= ws[k].ri <= (size - 1) / (k + 1) && 0 <= ws[k].rj <= (size - 1) / (k + 1)
  {
    seq(WAVES, k requires 0 <= k < WAVES =>
      Wave(Draw(draws[2 * k], size, k + 1), Draw(draws[2 * k + 1], size, k + 1)))
  }

  /** Only the first 2 * WAVES draws matter: the rest of the random stream is not read. */
  lemma WavesUseFirstDraws(draws: seq<int>, size: int)
    requires size >= 1 && |draws| >= 2 * WAVES
    requires forall k :: 0 <= k < |draws| ==> draws[k] >= 0
    ensures Waves(draws[..2 * WAVES], size) == Waves(draws, size)
  {
    var ws, ws' := Waves(draws, size), Waves(draws[..2 * WAVES], size);
    forall k | 0 <= k < WAVES ensures ws[k] == ws'[k] {
      assert draws[..2 * WAVES][2 * k] == draws[2 * k];
      assert draws[..2 * WAVES][2 * k + 1] == draws[2 * k + 1];
    }
  }

  /** On a grid of size at most 8 no wave can reach squared length 100, so
      every generated surface is the flat lattice. */
  lemma SmallGridHasNoWaves(draws: seq<int>, size: int)
    requires 1 <= size <= 8 && |draws| >= 2 * WAVES
    requires forall k :: 0 <= k < |draws| ==> draws[k] >= 0
    ensures forall k :: 0 <= k < WAVES ==> !Applied(Waves(draws, size)[k])
  {
    var ws := Waves(draws, size);
    forall k | 0 <= k < WAVES ensures !Applied(ws[k]) {
      DrawBelowSize(draws[2 * k], size, k + 1);
      DrawBelowSize(draws[2 * k + 1], size, k + 1);
      SmallWaveSkipped(ws[k]);
    }
  }

  /** Every frequency is below the grid size. */
  lemma DrawBelowSize(r: int, size: int, wave: int)
    requires r >= 0 && size >= 1 && wave >= 1
    ensures Draw(r, size, wave) < size
  {
    DivAtMost(size - 1, wave);
  }

  /** The point (i, j) after the waves ws: its lattice position with the
      ripple of every applied wave added, in order. */
  function Height<V>(ws: seq<Wave>, i: int, j: int, lattice: (int, int) -> V, ripple: (V, Wave, int, int) -> V): V
    decreases |ws|
  {
    if ws == [] then lattice(i, j)
    else
      var h := Height(ws[..|ws| - 1], i, j, lattice, ripple);
      var w := ws[|ws| - 1];
      if Applied(w) then ripple(h, w, i, j) else h
  }

  /** If no wave is applied, every point keeps its lattice position: the surface is flat. */
  lemma {:induction false} FlatWhenNoWave<V>(ws: seq<Wave>, i: int, j: int, lattice: (int, int) -> V, ripple: (V, Wave, int, int) -> V)
    requires forall k :: 0 <= k < |ws| ==> !Applied(ws[k])
    ensures Height(ws, i, j, lattice, ripple) == lattice(i, j)
    decreases |ws|
  {
    if ws != [] {
      var front := ws[..|ws| - 1];
      assert forall k :: 0 <= k < |front| ==> front[k] == ws[k];
      FlatWhenNoWave(front, i, j, lattice, ripple);
    }
  }

  /** Skipped waves do not matter: appending a wave that is not applied leaves every point as it was. */
  lemma {:induction false} SkippedWaveIsNoOp<V>(ws: seq<Wave>, w: Wave, i: int, j: int, lattice: (int, int) -> V, ripple: (V, Wave, int, int) -> V)
    requires !Applied(w)
    ensures Height(ws + [w], i, j, lattice, ripple) == Height(ws, i, j, lattice, ripple)
  {
    assert (ws + [w])[..|ws + [w]| - 1] == ws;
  }

  /** The first loop of surface generation: every point gets its lattice position. */
  method InitLattice<V>(P: array2<V>, size: int, lattice: (int, int) -> V)
    requires size >= 1 && P.Length0 == size + 1 && P.Length1 == size + 1
    modifies P
    ensures forall i, j :: 0 <= i <= size && 0 <= j <= size ==> P[i, j] == lattice(i, j)
  {
    for i := 0 to size + 1
      invariant forall a, b :: 0 <= a < i && 0 <= b <= size ==> P[a, b] == lattice(a, b)
    {
      for j := 0 to size + 1
        invariant forall a, b :: 0 <= a < i && 0 <= b <= size ==> P[a, b] == lattice(a, b)
        invariant forall b :: 0 <= b < j ==> P[i, b] == lattice(i, b)
      {
        P[i, j] := lattice(i, j);
      }
    }
  }

  /** The inner loops of one applied wave: every point gets the wave's ripple added. */
  method ApplyWave<V>(P: array2<V>, size: int, w: Wave, ripple: (V, Wave, int, int) -> V)
    requires size >= 1 && P.Length0 == size + 1 && P.Length1 == size + 1
    modifies P
    ensures forall i, j :: 0 <= i <= size && 0 <= j <= size ==> P[i, j] == ripple(old(P[i, j]), w, i, j)
  {
    for i := 0 to size + 1
      invariant forall a, b :: 0 <= a < i && 0 <= b <= size ==> P[a, b] == ripple(old(P[a, b]), w, a, b)
      invariant forall a, b :: i <= a <= size && 0 <= b <= size ==> P[a, b] == old(P[a, b])
    {
      for j := 0 to size + 1
        invariant forall a, b :: 0 <= a < i && 0 <= b <= size ==> P[a, b] == ripple(old(P[a, b]), w, a, b)
        invariant forall b :: 0 <= b < j ==> P[i, b] == ripple(old(P[i, b]), w, i, b)
        invariant forall a, b :: i <= a <= size && 0 <= b <= size && (a > i || b >= j) ==> P[a, b] == old(P[a, b])
      {
        P[i, j] := ripple(P[i, j], w, i, j);
      }
    }
  }

  /** Surface generation.  The random source is the sequence `draws`; the
      method consumes exactly the first 2 * WAVES of them, and afterwards
      every point is its lattice position plus the ripples of the applied
      waves among `Waves(draws, size)`. */
  method InitSurface<V>(P: array2<V>, size: int, draws: seq<int>,
                        lattice: (int, int) -> V, ripple: (V, Wave, int, int) -> V)
    returns (used: nat)
    requires size >= 1 && P.Length0 == size + 1 && P.Length1 == size + 1
    requires |draws| >= 2 * WAVES
    requires forall k :: 0 <= k < |draws| ==> draws[k] >= 0
    modifies P
    ensures used == 2 * WAVES
    ensures forall i, j :: 0 <= i <= size && 0 <= j <= size ==>
              P[i, j] == Height(Waves(draws, size), i, j, lattice, ripple)
  {
    InitLattice(P, size, lattice);
    ghost var ws := Waves(draws, size);
    assert ws[..0] == [];
    used := 0;
    var wave := 1;
    while wave <= WAVES
      invariant 1 <= wave <= WAVES + 1
      invariant used == 2 * (wave - 1)
      invariant forall i, j :: 0 <= i <= size && 0 <= j <= size ==>
                  P[i, j] == Height(ws[..wave - 1], i, j, lattice, ripple)
    {
      var ri := Draw(draws[used], size, wave);
      var rj := Draw(draws[used + 1], size, wave);
      used := used + 2;
      var w := Wave(ri, rj);
      assert w == ws[wave - 1];
      assert ws[..wave][..wave - 1] == ws[..wave - 1];
      if Applied(w) {
        ApplyWave(P, size, w, ripple);
      }
      wave := wave + 1;
    }
    assert ws[..WAVES] == ws;
  }
}
