/** The surface traversal of the display callback: one four-cornered polygon
    per grid cell, cells in row-major order (i outer, j inner).  Each corner
    is the grid index whose normal and point are sent to the renderer; the
    drawing calls themselves are not modelled.
 */
module Display {

  import opened Arith

  /** Grid indices (i, j). */
  type Index = (int, int)

  /** p and q are one unit step apart along exactly one axis. */
  predicate Adjacent(p: Index, q: Index) {
    (p.0 == q.0 && (p.1 - q.1 == 1 || q.1 - p.1 == 1)) ||
    (p.1 == q.1 && (p.0 - q.0 == 1 || q.0 - p.0 == 1))
  }

  /** The polygon of cell (i, j): its four corners, starting at (i, j) and
      going first along i, each corner a unit step from the one before and
      the last a unit step from the first, all within the cell. */
  function Quad(i: int, j: int): (q: seq<Index>)
    ensures |q| == 4
    ensures q[0] == (i, j) && q[1].0 == i + 1
    ensures Adjacent(q[0], q[1]) && Adjacent(q[1], q[2]) && Adjacent(q[2], q[3]) && Adjacent(q[3], q[0])
    ensures forall k :: 0 <= k < 4 ==> i <= q[k].0 <= i + 1 && j <= q[k].1 <= j + 1
    ensures forall k, l :: 0 <= k < l < 4 ==> q[k] != q[l]
  {
    [(i, j), (i + 1, j), (i + 1, j + 1), (i, j + 1)]
  }

  /** Division by size recovers the row and column of a row-major position. */
  lemma RowMajor(i: int, j: int, size: int)
    requires size >= 1 && 0 <= j < size
    ensures (i * size + j) / size == i && (i * size + j) % size == j
  {
    var k := i * size + j;
    var q, r := k / size, k % size;
    assert size * q + r == size * i + j;
    if q > i {
      assert size * (q - i) == j - r;
      MulAtLeast(q - i, size);
    } else if q < i {
      assert size * (i - q) == r - j;
      MulAtLeast(i - q, size);
    }
  }

  /** A row-major position below size * size has row and column in [0, size). */
  lemma RowMajorInRange(k: int, size: int)
    requires size >= 1 && 0 <= k < size * size
    ensures 0 <= k / size < size && 0 <= k % size < size
  {
  }

  /** The row-major position of cell (i, j); it is below size * size. */
  function CellIndex(i: int, j: int, size: int): (k: int)
    requires size >= 1 && 0 <= i < size && 0 <= j < size
    ensures 0 <= k < size * size
    ensures k / size == i && k % size == j
  {
    RowMajor(i, j, size);
    assert i * size + j < size * size by {
      assert (size - 1 - i) * size >= 0;
      assert size * size == i * size + (size - 1 - i) * size + size;
    }
    i * size + j
  }

  /** The display loop.  It emits exactly size * size polygons, the k-th
      being the quad of cell (k / size, k % size), so every cell is drawn
      once and no cell twice, and every corner it reads lies in [0, size]. */
  method DrawSurface(size: int) returns (polys: seq<seq<Index>>)
    requires size >= 1
    ensures |polys| == size * size
    ensures forall k :: 0 <= k < |polys| ==> polys[k] == Quad(k / size, k % size)
    ensures forall i, j :: 0 <= i < size && 0 <= j < size ==> polys[CellIndex(i, j, size)] == Quad(i, j)
    ensures forall k, l :: 0 <= k < l < |polys| ==> polys[k] != polys[l]
    ensures forall k, c :: 0 <= k < |polys| && c in polys[k] ==> 0 <= c.0 <= size && 0 <= c.1 <= size
  {
    polys := [];
    for i := 0 to size
      invariant |polys| == i * size
      invariant forall k :: 0 <= k < |polys| ==> polys[k] == Quad(k / size, k % size)
    {
      for j := 0 to size
        invariant |polys| == i * size + j
        invariant forall k :: 0 <= k < |polys| ==> polys[k] == Quad(k / size, k % size)
      {
        RowMajor(i, j, size);
        polys := polys + [Quad(i, j)];
      }
    }
    forall k, l | 0 <= k < l < |polys| ensures polys[k] != polys[l] {
      assert k == size * (k / size) + k % size;
      assert l == size * (l / size) + l % size;
      assert polys[k][0] == (k / size, k % size);
      assert polys[l][0] == (l / size, l % size);
    }
    forall k, c | 0 <= k < |polys| && c in polys[k] ensures 0 <= c.0 <= size && 0 <= c.1 <= size {
      RowMajorInRange(k, size);
    }
  }
}
