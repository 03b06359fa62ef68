/** The coverage score of a drone placement (the `fitness` function).

    Each drone position is mapped to a grid cell, a disc of cells around it is
    marked in a 0/1 mask, and the score is the probability mass of the map
    under the union of all marked discs. */
module Coverage {

  /** A continuous drone position inside the square search area. */
  datatype Point = Point(x: real, y: real)

  /** The side length of one grid cell, in the units of the area. */
  type Scale = r: real | r > 0.0 witness 1.0

  /** What the scoring needs to know about the grid: its side `n` in cells,
      the cell side `escala`, and the detection radius in whole cells. */
  datatype Geometry = Geometry(n: nat, escala: Scale, radio: int)

  /** Python's `int()` on a float: truncation toward zero. */
  function Trunc(q: real): (r: int)
    ensures q >= 0.0 ==> r as real <= q < r as real + 1.0
    ensures q < 0.0 ==> r as real - 1.0 < q <= r as real
  {
    if q >= 0.0 then q.Floor else -((-q).Floor)
  }

  /** The grid index of one coordinate: `int(c / escala)`. */
  function CellOf(c: real, escala: Scale): int {
    Trunc(c / escala)
  }

  /** `escala = AREA_SIZE / tamaño` and `radio = int(RADIO_DETECCION / escala)`. */
  function GeometryOf(n: nat, areaSize: real, radioDeteccion: real): (g: Geometry)
    requires n > 0 && areaSize > 0.0
    ensures g.n == n && g.escala * n as real == areaSize
    ensures g.radio == Trunc(radioDeteccion / g.escala)
  {
    var escala: Scale := areaSize / n as real;
    Geometry(n, escala, Trunc(radioDeteccion / escala))
  }

  /** The map is square, with at least one cell. */
  predicate IsSquare(mapa: seq<seq<real>>) {
    |mapa| > 0 && forall a :: 0 <= a < |mapa| ==> |mapa[a]| == |mapa|
  }

  predicate NonNegative(mapa: seq<seq<real>>) {
    forall a, b :: 0 <= a < |mapa| && 0 <= b < |mapa[a]| ==> mapa[a][b] >= 0.0
  }

  predicate InGrid(n: int, a: int, b: int) {
    0 <= a < n && 0 <= b < n
  }

  /** The offset (dx, dy) is visited by the two `range(-radio, radio+1)`
      loops and passes the squared-distance test. */
  predicate InDisc(dx: int, dy: int, radio: int) {
    -radio <= dx <= radio && -radio <= dy <= radio && dx * dx + dy * dy <= radio * radio
  }

  /** The drone at `p` marks cell (a, b). */
  predicate Marks(p: Point, g: Geometry, a: int, b: int) {
    InGrid(g.n, a, b) && InDisc(a - CellOf(p.x, g.escala), b - CellOf(p.y, g.escala), g.radio)
  }

  /** Some drone of the placement marks cell (a, b). */
  predicate Covered(ps: seq<Point>, g: Geometry, a: int, b: int) {
    exists k :: 0 <= k < |ps| && Marks(ps[k], g, a, b)
  }

  function Indicator(b: bool): real {
    if b then 1.0 else 0.0
  }

  /** The mask `cubierto` after all drones have been processed. */
  function Mask(ps: seq<Point>, g: Geometry): (m: seq<seq<real>>)
    ensures |m| == g.n && forall a :: 0 <= a < g.n ==> |m[a]| == g.n
  {
    seq(g.n, a => seq(g.n, b => Indicator(Covered(ps, g, a, b))))
  }

  predicate SameShape(m: seq<seq<real>>, w: seq<seq<real>>) {
    |m| == |w| && forall a :: 0 <= a < |m| ==> |m[a]| == |w[a]|
  }

  /** Sum of the elementwise product of two rows. */
  function RowDot(m: seq<real>, w: seq<real>): real
    requires |m| == |w|
    decreases |m|
  {
    if |m| == 0 then 0.0 else RowDot(m[..|m| - 1], w[..|w| - 1]) + m[|m| - 1] * w[|w| - 1]
  }

  /** `np.sum(m * w)`. */
  function GridDot(m: seq<seq<real>>, w: seq<seq<real>>): real
    requires SameShape(m, w)
    decreases |m|
  {
    if |m| == 0 then 0.0 else GridDot(m[..|m| - 1], w[..|w| - 1]) + RowDot(m[|m| - 1], w[|w| - 1])
  }

  function RowSum(m: seq<real>): real
    decreases |m|
  {
    if |m| == 0 then 0.0 else RowSum(m[..|m| - 1]) + m[|m| - 1]
  }

  /** `np.sum(m)`: the total mass of the map. */
  function GridSum(m: seq<seq<real>>): real
    decreases |m|
  {
    if |m| == 0 then 0.0 else GridSum(m[..|m| - 1]) + RowSum(m[|m| - 1])
  }

  /** The specification of `fitness`: the mass of the map under the union mask. */
  function CoveredMass(ps: seq<Point>, mapa: seq<seq<real>>, areaSize: real, radioDeteccion: real): real
    requires IsSquare(mapa) && areaSize > 0.0
  {
    GridDot(mapa, Mask(ps, GeometryOf(|mapa|, areaSize, radioDeteccion)))
  }

  /** The contents of a square array, row by row. */
  ghost function Rows(c: array2<real>): (m: seq<seq<real>>)
    reads c
    ensures |m| == c.Length0 && forall a :: 0 <= a < c.Length0 ==> |m[a]| == c.Length1
  {
    seq(c.Length0, a requires 0 <= a < c.Length0 reads c => seq(c.Length1, b requires 0 <= b < c.Length1 reads c => c[a, b]))
  }

  /** `fitness(posiciones, mapa)`: fills the 0/1 array `cubierto` drone by
      drone, then sums the map over it. */
  method Fitness(posiciones: seq<Point>, mapa: seq<seq<real>>, areaSize: real, radioDeteccion: real)
    returns (score: real)
    requires IsSquare(mapa) && areaSize > 0.0
    ensures score == CoveredMass(posiciones, mapa, areaSize, radioDeteccion)
  {
    var tamano := |mapa|;
    var escala: Scale := areaSize / tamano as real;
    ghost var g := GeometryOf(tamano, areaSize, radioDeteccion);
    var cubierto := new real[tamano, tamano]((_, _) => 0.0);

    for k := 0 to |posiciones|
      invariant forall a, b :: 0 <= a < tamano && 0 <= b < tamano ==>
        cubierto[a, b] == Indicator(Covered(posiciones[..k], g, a, b))
    {
      var radio := Trunc(radioDeteccion / escala);
      MarkDisc(cubierto, posiciones[k], escala, radio, g);
      CoveredSnoc(posiciones[..k], posiciones[k], g);
      assert posiciones[..k + 1] == posiciones[..k] + [posiciones[k]];
    }
    assert Rows(cubierto) == Mask(posiciones, g) by {
      forall a | 0 <= a < tamano ensures Rows(cubierto)[a] == Mask(posiciones, g)[a] {
        assert posiciones[..|posiciones|] == posiciones;
      }
    }
    score := MaskedSum(mapa, cubierto);
  }

  /** The two `dx`/`dy` loops of `fitness` for one drone: every in-grid cell
      of the disc around the drone's cell is set to 1, nothing else changes. */
  method MarkDisc(cubierto: array2<real>, p: Point, escala: Scale, radio: int, ghost g: Geometry)
    requires cubierto.Length0 == cubierto.Length1 == g.n
    requires escala == g.escala && radio == g.radio
    modifies cubierto
    ensures forall a, b :: 0 <= a < g.n && 0 <= b < g.n ==>
      cubierto[a, b] == if Marks(p, g, a, b) then 1.0 else old(cubierto[a, b])
  {
    var tamano := cubierto.Length0;
    var i := CellOf(p.x, escala);
    var j := CellOf(p.y, escala);
    var dx := -radio;
    while dx <= radio
      invariant -radio <= dx && (dx <= radio + 1 || dx == -radio)
      invariant forall a, b :: 0 <= a < tamano && 0 <= b < tamano ==>
        cubierto[a, b] == if InDisc(a - i, b - j, radio) && a - i < dx then 1.0 else old(cubierto[a, b])
    {
      var dy := -radio;
      while dy <= radio
        invariant -radio <= dy <= radio + 1
        invariant forall a, b :: 0 <= a < tamano && 0 <= b < tamano ==>
          cubierto[a, b] == if InDisc(a - i, b - j, radio) && (a - i < dx || (a - i == dx && b - j < dy))
                            then 1.0 else old(cubierto[a, b])
      {
        if 0 <= i + dx < tamano && 0 <= j + dy < tamano {
          if dx * dx + dy * dy <= radio * radio {
            cubierto[i + dx, j + dy] := 1.0;
          }
        }
        dy := dy + 1;
      }
      dx := dx + 1;
    }
    assert forall a, b :: Marks(p, g, a, b) == (InGrid(g.n, a, b) && InDisc(a - i, b - j, radio));
  }

  /** `np.sum(mapa * cubierto)`. */
  method MaskedSum(mapa: seq<seq<real>>, cubierto: array2<real>) returns (s: real)
    requires IsSquare(mapa) && cubierto.Length0 == cubierto.Length1 == |mapa|
    ensures s == GridDot(mapa, Rows(cubierto))
  {
    ghost var mask := Rows(cubierto);
    var n := |mapa|;
    s := 0.0;
    for a := 0 to n
      invariant s == GridDot(mapa[..a], mask[..a])
    {
      var row := 0.0;
      for b := 0 to n
        invariant row == RowDot(mapa[a][..b], mask[a][..b])
      {
        assert mapa[a][..b + 1][..b] == mapa[a][..b] && mask[a][..b + 1][..b] == mask[a][..b];
        row := row + mapa[a][b] * cubierto[a, b];
      }
      assert mapa[..a + 1][..a] == mapa[..a] && mask[..a + 1][..a] == mask[..a];
      assert mapa[a][..n] == mapa[a] && mask[a][..n] == mask[a];
      s := s + row;
    }
    assert mapa[..n] == mapa && mask[..n] == mask;
  }

  // ---------------------------------------------------------------------
  // The mask is a union of per-drone discs

  lemma CoveredSnoc(ps: seq<Point>, p: Point, g: Geometry)
    ensures forall a, b :: Covered(ps + [p], g, a, b) <==> Covered(ps, g, a, b) || Marks(p, g, a, b)
  {
    forall a, b ensures Covered(ps + [p], g, a, b) <==> Covered(ps, g, a, b) || Marks(p, g, a, b) {
      if Covered(ps, g, a, b) {
        var k :| 0 <= k < |ps| && Marks(ps[k], g, a, b);
        assert (ps + [p])[k] == ps[k];
      }
      if Marks(p, g, a, b) {
        assert (ps + [p])[|ps|] == p;
      }
    }
  }

  /** A cell is covered by a concatenation of placements exactly when one of
      them covers it. */
  lemma CoveredUnion(ps: seq<Point>, qs: seq<Point>, g: Geometry, a: int, b: int)
    ensures Covered(ps + qs, g, a, b) <==> Covered(ps, g, a, b) || Covered(qs, g, a, b)
  {
    if Covered(ps + qs, g, a, b) {
      var k :| 0 <= k < |ps + qs| && Marks((ps + qs)[k], g, a, b);
      if k < |ps| {
        assert (ps + qs)[k] == ps[k];
      } else {
        assert (ps + qs)[k] == qs[k - |ps|];
      }
    }
    if Covered(ps, g, a, b) {
      var k :| 0 <= k < |ps| && Marks(ps[k], g, a, b);
      assert (ps + qs)[k] == ps[k];
    }
    if Covered(qs, g, a, b) {
      var k :| 0 <= k < |qs| && Marks(qs[k], g, a, b);
      assert (ps + qs)[|ps| + k] == qs[k];
    }
  }

  lemma CoveredSubset(ps: seq<Point>, qs: seq<Point>, g: Geometry, a: int, b: int)
    requires forall k :: 0 <= k < |ps| ==> ps[k] in qs
    requires Covered(ps, g, a, b)
    ensures Covered(qs, g, a, b)
  {
    var k :| 0 <= k < |ps| && Marks(ps[k], g, a, b);
    var l :| 0 <= l < |qs| && qs[l] == ps[k];
  }

  // ---------------------------------------------------------------------
  // Sums over the grid

  lemma {:induction false} RowDotBounds(m: seq<real>, w: seq<real>)
    requires |m| == |w|
    requires forall b :: 0 <= b < |m| ==> m[b] >= 0.0 && 0.0 <= w[b] <= 1.0
    ensures 0.0 <= RowDot(m, w) <= RowSum(m)
  {
    if |m| > 0 {
      var n := |m| - 1;
      RowDotBounds(m[..n], w[..n]);
      WeightedBounds(m[n], w[n]);
      var head, last := RowDot(m[..n], w[..n]), m[n] * w[n];
      assert 0.0 <= head <= RowSum(m[..n]);
      assert 0.0 <= last <= m[n];
      assert RowDot(m, w) == head + last;
      assert RowSum(m) == RowSum(m[..n]) + m[n];
    }
  }

  lemma {:induction false} GridDotBounds(m: seq<seq<real>>, w: seq<seq<real>>)
    requires SameShape(m, w) && NonNegative(m)
    requires forall a, b :: 0 <= a < |w| && 0 <= b < |w[a]| ==> 0.0 <= w[a][b] <= 1.0
    ensures 0.0 <= GridDot(m, w) <= GridSum(m)
  {
    if |m| > 0 {
      var n := |m| - 1;
      GridDotBounds(m[..n], w[..n]);
      RowDotBounds(m[n], w[n]);
    }
  }

  lemma {:induction false} RowDotMono(m: seq<real>, w1: seq<real>, w2: seq<real>)
    requires |m| == |w1| == |w2|
    requires forall b :: 0 <= b < |m| ==> m[b] >= 0.0 && w1[b] <= w2[b]
    ensures RowDot(m, w1) <= RowDot(m, w2)
  {
    if |m| > 0 {
      var n := |m| - 1;
      RowDotMono(m[..n], w1[..n], w2[..n]);
      WeightedMono(m[n], w1[n], w2[n]);
    }
  }

  lemma WeightedBounds(m: real, w: real)
    requires m >= 0.0 && 0.0 <= w <= 1.0
    ensures 0.0 <= m * w <= m
  {
    assert m - m * w == m * (1.0 - w);
  }

  lemma WeightedMono(m: real, w1: real, w2: real)
    requires m >= 0.0 && w1 <= w2
    ensures m * w1 <= m * w2
  {
    assert m * w2 - m * w1 == m * (w2 - w1);
  }

  lemma {:induction false} GridDotMono(m: seq<seq<real>>, w1: seq<seq<real>>, w2: seq<seq<real>>)
    requires SameShape(m, w1) && SameShape(m, w2) && NonNegative(m)
    requires forall a, b :: 0 <= a < |m| && 0 <= b < |m[a]| ==> w1[a][b] <= w2[a][b]
    ensures GridDot(m, w1) <= GridDot(m, w2)
  {
    if |m| > 0 {
      var n := |m| - 1;
      GridDotMono(m[..n], w1[..n], w2[..n]);
      RowDotMono(m[n], w1[n], w2[n]);
    }
  }

  /** Against a row that is 1 at column j and 0 elsewhere, the dot product
      picks out m[j] (nothing when j is outside the row). */
  lemma {:induction false} RowDotOneHot(m: seq<real>, w: seq<real>, j: int)
    requires |m| == |w|
    requires forall b :: 0 <= b < |w| ==> w[b] == Indicator(b == j)
    ensures RowDot(m, w) == if 0 <= j < |m| then m[j] else 0.0
  {
    if |m| > 0 {
      var n := |m| - 1;
      RowDotOneHot(m[..n], w[..n], j);
    }
  }

  lemma {:induction false} GridDotOneHot(m: seq<seq<real>>, w: seq<seq<real>>, i: int, j: int)
    requires SameShape(m, w)
    requires forall a, b :: 0 <= a < |w| && 0 <= b < |w[a]| ==> w[a][b] == Indicator(a == i && b == j)
    ensures GridDot(m, w) == if 0 <= i < |m| && 0 <= j < |m[i]| then m[i][j] else 0.0
  {
    if |m| > 0 {
      var n := |m| - 1;
      GridDotOneHot(m[..n], w[..n], i, j);
      RowDotOneHot(m[n], w[n], if n == i then j else -1);
    }
  }

  // ---------------------------------------------------------------------
  // Properties of the score

  /** On a non-negative map the score lies between 0 and the total mass
      (so in [0, 1] on a normalised map). */
  lemma CoverageBounds(ps: seq<Point>, mapa: seq<seq<real>>, areaSize: real, radioDeteccion: real)
    requires IsSquare(mapa) && areaSize > 0.0 && NonNegative(mapa)
    ensures 0.0 <= CoveredMass(ps, mapa, areaSize, radioDeteccion) <= GridSum(mapa)
  {
    GridDotBounds(mapa, Mask(ps, GeometryOf(|mapa|, areaSize, radioDeteccion)));
  }

  /** Every drone of `ps` is also in `qs` (in any order, any number of times):
      on a non-negative map `qs` scores at least as much. */
  lemma CoverageMonotone(ps: seq<Point>, qs: seq<Point>, mapa: seq<seq<real>>, areaSize: real, radioDeteccion: real)
    requires IsSquare(mapa) && areaSize > 0.0 && NonNegative(mapa)
    requires forall k :: 0 <= k < |ps| ==> ps[k] in qs
    ensures CoveredMass(ps, mapa, areaSize, radioDeteccion) <= CoveredMass(qs, mapa, areaSize, radioDeteccion)
  {
    var g := GeometryOf(|mapa|, areaSize, radioDeteccion);
    forall a, b | 0 <= a < |mapa| && 0 <= b < |mapa[a]|
      ensures Mask(ps, g)[a][b] <= Mask(qs, g)[a][b]
    {
      if Covered(ps, g, a, b) {
        CoveredSubset(ps, qs, g, a, b);
      }
    }
    GridDotMono(mapa, Mask(ps, g), Mask(qs, g));
  }

  /** Adding a drone never lowers the score. */
  lemma AddingDroneNeverLowers(ps: seq<Point>, p: Point, mapa: seq<seq<real>>, areaSize: real, radioDeteccion: real)
    requires IsSquare(mapa) && areaSize > 0.0 && NonNegative(mapa)
    ensures CoveredMass(ps, mapa, areaSize, radioDeteccion) <= CoveredMass(ps + [p], mapa, areaSize, radioDeteccion)
  {
    forall k | 0 <= k < |ps| ensures ps[k] in ps + [p] {
      assert (ps + [p])[k] == ps[k];
    }
    CoverageMonotone(ps, ps + [p], mapa, areaSize, radioDeteccion);
  }

  /** Two placements with the same drones (whatever their order and
      multiplicity) score the same, on any map. */
  lemma CoverageSameDrones(ps: seq<Point>, qs: seq<Point>, mapa: seq<seq<real>>, areaSize: real, radioDeteccion: real)
    requires IsSquare(mapa) && areaSize > 0.0
    requires forall p :: p in ps <==> p in qs
    ensures CoveredMass(ps, mapa, areaSize, radioDeteccion) == CoveredMass(qs, mapa, areaSize, radioDeteccion)
  {
    var g := GeometryOf(|mapa|, areaSize, radioDeteccion);
    forall a, b | 0 <= a < g.n && 0 <= b < g.n
      ensures Covered(ps, g, a, b) == Covered(qs, g, a, b)
    {
      if Covered(ps, g, a, b) {
        CoveredSubset(ps, qs, g, a, b);
      }
      if Covered(qs, g, a, b) {
        CoveredSubset(qs, ps, g, a, b);
      }
    }
    assert Mask(ps, g) == Mask(qs, g) by {
      forall a | 0 <= a < g.n ensures Mask(ps, g)[a] == Mask(qs, g)[a] { }
    }
  }

  /** Reordering the drones leaves the score unchanged. */
  lemma CoveragePermutation(ps: seq<Point>, qs: seq<Point>, mapa: seq<seq<real>>, areaSize: real, radioDeteccion: real)
    requires IsSquare(mapa) && areaSize > 0.0
    requires multiset(ps) == multiset(qs)
    ensures CoveredMass(ps, mapa, areaSize, radioDeteccion) == CoveredMass(qs, mapa, areaSize, radioDeteccion)
  {
    forall p ensures p in ps <==> p in qs {
      assert p in ps <==> p in multiset(ps);
      assert p in qs <==> p in multiset(qs);
    }
    CoverageSameDrones(ps, qs, mapa, areaSize, radioDeteccion);
  }

  /** A cell covered by several drones is counted once: doubling the
      placement does not change the score. */
  lemma OverlapCountedOnce(ps: seq<Point>, mapa: seq<seq<real>>, areaSize: real, radioDeteccion: real)
    requires IsSquare(mapa) && areaSize > 0.0
    ensures CoveredMass(ps + ps, mapa, areaSize, radioDeteccion) == CoveredMass(ps, mapa, areaSize, radioDeteccion)
  {
    forall p ensures p in ps + ps <==> p in ps {
      if p in ps + ps {
        var k :| 0 <= k < |ps + ps| && (ps + ps)[k] == p;
        if k >= |ps| {
          assert ps[k - |ps|] == p;
        }
      }
      if p in ps {
        var k :| 0 <= k < |ps| && ps[k] == p;
        assert (ps + ps)[k] == p;
      }
    }
    CoverageSameDrones(ps + ps, ps, mapa, areaSize, radioDeteccion);
  }

  /** The bounding square of the two loops adds nothing: for a non-negative
      radius an offset is marked exactly when it passes the distance test. */
  lemma DiscIsDistanceTest(dx: int, dy: int, radio: int)
    requires radio >= 0
    ensures InDisc(dx, dy, radio) <==> dx * dx + dy * dy <= radio * radio
  {
    if dx * dx + dy * dy <= radio * radio {
      SquareBound(dx, radio, dy * dy);
      SquareBound(dy, radio, dx * dx);
    }
  }

  lemma SquareBound(d: int, radio: int, rest: int)
    requires radio >= 0 && rest >= 0 && d * d + rest <= radio * radio
    ensures -radio <= d <= radio
  {
    if d > radio || d < -radio {
      SquareAtLeast(d, radio + 1);
    }
  }

  /** A detection radius shorter than one cell gives a radius of 0 cells. */
  lemma SmallRadiusIsZero(areaSize: real, n: nat, radioDeteccion: real)
    requires n > 0 && areaSize > 0.0
    requires 0.0 <= radioDeteccion < areaSize / n as real
    ensures GeometryOf(n, areaSize, radioDeteccion).radio == 0
  {
    var escala: Scale := areaSize / n as real;
    assert radioDeteccion / escala < 1.0;
  }

  /** With a radius of 0 cells a drone covers exactly its own cell, if that
      cell lies in the grid. */
  lemma RadiusZeroCovers(ps: seq<Point>, g: Geometry, a: int, b: int)
    requires g.radio == 0
    ensures Covered(ps, g, a, b) <==>
      InGrid(g.n, a, b) && exists k :: 0 <= k < |ps| && CellOf(ps[k].x, g.escala) == a && CellOf(ps[k].y, g.escala) == b
  {
    if InGrid(g.n, a, b) && exists k :: 0 <= k < |ps| && CellOf(ps[k].x, g.escala) == a && CellOf(ps[k].y, g.escala) == b {
      var k :| 0 <= k < |ps| && CellOf(ps[k].x, g.escala) == a && CellOf(ps[k].y, g.escala) == b;
      assert Marks(ps[k], g, a, b);
    }
  }

  /** Some drone of the placement lies in cell (a, b) itself. */
  predicate OwnCell(ps: seq<Point>, g: Geometry, a: int, b: int) {
    exists k :: 0 <= k < |ps| && CellOf(ps[k].x, g.escala) == a && CellOf(ps[k].y, g.escala) == b
  }

  /** The 0/1 mask of the in-grid cells that hold a drone. */
  function OwnCellMask(ps: seq<Point>, g: Geometry): (m: seq<seq<real>>)
    ensures |m| == g.n && forall a :: 0 <= a < g.n ==> |m[a]| == g.n
  {
    seq(g.n, a => seq(g.n, b => Indicator(OwnCell(ps, g, a, b))))
  }

  /** With a radius of 0 cells the score of any placement is the mass of
      the distinct in-grid cells that hold a drone, each counted once. */
  lemma RadiusZeroMass(ps: seq<Point>, mapa: seq<seq<real>>, areaSize: real, radioDeteccion: real)
    requires IsSquare(mapa) && areaSize > 0.0
    requires GeometryOf(|mapa|, areaSize, radioDeteccion).radio == 0
    ensures CoveredMass(ps, mapa, areaSize, radioDeteccion) ==
      GridDot(mapa, OwnCellMask(ps, GeometryOf(|mapa|, areaSize, radioDeteccion)))
  {
    var g := GeometryOf(|mapa|, areaSize, radioDeteccion);
    forall a, b | 0 <= a < g.n && 0 <= b < g.n
      ensures Covered(ps, g, a, b) == OwnCell(ps, g, a, b)
    {
      RadiusZeroCovers(ps, g, a, b);
    }
    assert Mask(ps, g) == OwnCellMask(ps, g) by {
      forall a | 0 <= a < g.n ensures Mask(ps, g)[a] == OwnCellMask(ps, g)[a] { }
    }
  }

  /** With a radius of 0 cells one drone scores the value of its own cell,
      or 0 when its cell lies outside the grid. */
  lemma RadiusZeroSingleDrone(p: Point, mapa: seq<seq<real>>, areaSize: real, radioDeteccion: real)
    requires IsSquare(mapa) && areaSize > 0.0
    requires GeometryOf(|mapa|, areaSize, radioDeteccion).radio == 0
    ensures var g := GeometryOf(|mapa|, areaSize, radioDeteccion);
            var i, j := CellOf(p.x, g.escala), CellOf(p.y, g.escala);
            CoveredMass([p], mapa, areaSize, radioDeteccion) == if InGrid(|mapa|, i, j) then mapa[i][j] else 0.0
  {
    var g := GeometryOf(|mapa|, areaSize, radioDeteccion);
    var i, j := CellOf(p.x, g.escala), CellOf(p.y, g.escala);
    var mask := Mask([p], g);
    forall a, b | 0 <= a < |mask| && 0 <= b < |mask[a]|
      ensures mask[a][b] == Indicator(a == i && b == j)
    {
      assert mask[a][b] == Indicator(Covered([p], g, a, b));
      assert Covered([p], g, a, b) == Marks(p, g, a, b) by {
        if Marks(p, g, a, b) {
          assert [p][0] == p;
        }
      }
    }
    GridDotOneHot(mapa, mask, i, j);
  }

  /** A drone on the far edge (x == AREA_SIZE) lies in row n (the first
      index), just outside the grid; it marks only in-grid cells in the rows
      below it. */
  lemma EdgeDroneOutsideGrid(p: Point, g: Geometry, areaSize: real, a: int, b: int)
    requires g.n > 0 && g.escala * g.n as real == areaSize
    requires p.x == areaSize
    ensures CellOf(p.x, g.escala) == g.n
    ensures Marks(p, g, a, b) ==> g.n - g.radio <= a < g.n
  {
    assert p.x / g.escala == g.n as real;
  }

  /** One drone with a 5-cell radius on a 10-cell grid never covers every
      cell: some corner is at squared distance at least 50 > 25. */
  lemma OneDroneMissesACorner(p: Point, g: Geometry)
    requires g.n == 10 && g.radio == 5
    ensures exists a, b :: InGrid(g.n, a, b) && !Covered([p], g, a, b)
  {
    var i, j := CellOf(p.x, g.escala), CellOf(p.y, g.escala);
    var a := if i < 5 then 9 else 0;
    var b := if j < 5 then 9 else 0;
    var dx, dy := a - i, b - j;
    assert dx >= 5 || dx <= -5;
    assert dy >= 5 || dy <= -5;
    assert dx * dx >= 25 by { SquareAtLeast(dx, 5); }
    assert dy * dy >= 25 by { SquareAtLeast(dy, 5); }
    assert !Marks(p, g, a, b);
    assert !Covered([p], g, a, b);
  }

  lemma SquareAtLeast(d: int, k: int)
    requires k >= 0 && (d >= k || d <= -k)
    ensures d * d >= k * k
  {
    var e := if d >= 0 then d else -d;
    assert d * d == e * e;
    MulLeft(k, e, e);
    MulLeft(k, e, k);
  }

  lemma MulLeft(x: int, y: int, z: int)
    requires 0 <= x <= y && z >= 0
    ensures x * z <= y * z
  {
  }
}
