/**
 * The integer part of Utilities/PositionUtils.cs: a stack index is split into
 * a layer and a cell of a 5 x 5 grid. C# `/` and `%` on int truncate toward
 * zero; they are written out here so that negative indices behave as in C#.
 * Spacing, centring and layer height (floats) are not modelled.
 */
module PositionUtils {

  const GridWidth: int := 5
  const GridHeight: int := 5
  const CellsPerLayer: int := GridWidth * GridHeight

  /** Euclidean division of a non-negative dividend brackets it between two multiples of the divisor. */
  lemma DivBrackets(n: int, b: int)
    requires 0 <= n && 0 < b
    ensures 0 <= n / b && (n / b) * b <= n < (n / b) * b + b
  {
    assert n == (n / b) * b + n % b;
  }

  /** C# integer division (truncates toward zero). */
  function CsDiv(a: int, b: int): (q: int)
    requires b > 0
    ensures 0 <= a ==> 0 <= q && q * b <= a < q * b + b
    ensures a < 0 ==> q <= 0 && q * b - b < a <= q * b
  {
    if a >= 0 then
      DivBrackets(a, b);
      a / b
    else
      var m := (-a) / b;
      DivBrackets(-a, b);
      assert (-m) * b == -(m * b);
      -m
  }

  /** C# remainder: takes the sign of the dividend. */
  function CsRem(a: int, b: int): (r: int)
    requires b > 0
    ensures a == b * CsDiv(a, b) + r
    ensures a >= 0 ==> 0 <= r < b
    ensures a < 0 ==> -b < r <= 0
  {
    a - b * CsDiv(a, b)
  }

  /** A grid cell: layer index, row (z) and column (x). */
  datatype Cell = Cell(layer: int, z: int, x: int)

  /** CalculateGridPosition, integer part: the layer, row and column of a stack index. */
  function GridCell(index: int): (c: Cell)
    ensures index == c.layer * CellsPerLayer + c.z * GridWidth + c.x
    ensures index >= 0 ==> 0 <= c.x < GridWidth && 0 <= c.z < GridHeight && c.layer == index / CellsPerLayer
    ensures index < 0 ==> -GridWidth < c.x <= 0 && -GridHeight < c.z <= 0
  {
    var layer := CsDiv(index, CellsPerLayer);
    var indexInLayer := CsRem(index, CellsPerLayer);
    var x := CsRem(indexInLayer, GridWidth);
    var row := CsDiv(indexInLayer, GridWidth);
    var z := CsRem(row, GridHeight);
    assert -GridHeight < row < GridHeight;
    assert z == row;
    Cell(layer, z, x)
  }

  /** The final `% GridHeight` on the row never changes it. */
  lemma RowModuloIsRedundant(index: int)
    ensures GridCell(index).z == CsDiv(CsRem(index, CellsPerLayer), GridWidth)
  {
    var indexInLayer := CsRem(index, CellsPerLayer);
    var row := CsDiv(indexInLayer, GridWidth);
    assert -GridHeight < row < GridHeight;
  }

  /** Distinct indices occupy distinct cells. */
  lemma GridCellInjective(i: int, j: int)
    ensures GridCell(i) == GridCell(j) ==> i == j
  {
  }

  /** A layer holds exactly the 25 consecutive indices starting at layer * 25. */
  lemma LayerIsTwentyFiveConsecutiveIndices(index: int, layer: int)
    requires index >= 0
    ensures GridCell(index).layer == layer <==> layer * CellsPerLayer <= index < layer * CellsPerLayer + CellsPerLayer
  {
    var c := GridCell(index);
    if layer < c.layer {
      assert (layer + 1) * CellsPerLayer <= c.layer * CellsPerLayer;
    } else if layer > c.layer {
      assert (c.layer + 1) * CellsPerLayer <= layer * CellsPerLayer;
    }
  }
}
