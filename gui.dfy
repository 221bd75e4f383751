/**
 * The handlers of the `gui()` frame callback that change the visualiser's state: the
 * editable matrix/vector table, the scale dragger and the Generate Dots, Clear Dots and
 * Reset buttons. Like `gui()`, they write the fields of the `NvgTest` object directly.
 *
 * Widgets are inputs: a text cell is the outcome of `float(text)` (None when it raises
 * ValueError), the scale dragger is its (changed, value) pair, the Generate Dots button
 * brings the 20 random draws it appends.
 */
module Gui {
  import opened Wrappers
  import opened LinAlg
  import opened NvgRender

  /** Parse-or-ignore: a parsed value replaces `current`, a failed parse keeps it. */
  function ParseOrKeep(current: real, parsed: Option<real>): real {
    parsed.GetOr(current)
  }

  /** Matrix cell (i, j) of the table: column i, component j. */
  method EditMatrixCell(data: NvgTest, i: nat, j: nat, parsed: Option<real>)
    requires data.Valid() && i < 2 && j < 2
    modifies data`matrix
    ensures data.Valid()
    ensures forall k, l | 0 <= k < 3 && 0 <= l < 3 ::
      Entry(data.matrix, k, l)
        == if k == i && l == j then ParseOrKeep(Entry(old(data.matrix), k, l), parsed) else Entry(old(data.matrix), k, l)
    ensures forall k | 0 <= k < 3 && k != i :: Column(data.matrix, k) == Column(old(data.matrix), k)
  {
    if parsed.Some? {
      data.matrix := WithEntry(data.matrix, i, j, parsed.value);
      assert Entry(data.matrix, i, 2) == Entry(old(data.matrix), i, 2);
    }
  }

  /** Input-vector cell i of the table: component i of the misc vector. */
  method EditInputCell(data: NvgTest, i: nat, parsed: Option<real>)
    requires data.Valid() && i < 2
    modifies data`miscVector
    ensures data.Valid()
    ensures Comp2(data.miscVector, i) == ParseOrKeep(Comp2(old(data.miscVector), i), parsed)
    ensures Comp2(data.miscVector, 1 - i) == Comp2(old(data.miscVector), 1 - i)
  {
    if parsed.Some? {
      data.miscVector := WithComp2(data.miscVector, i, parsed.value);
    }
  }

  /**
   * The "MatrixEdit" table for one frame. Row i holds matrix cells (i, 0) and (i, 1),
   * input-vector cell i and the read-only output cell i, which shows component i of
   * `matrix * misc_vector` as it stands when that row is drawn. The result is what the two
   * output cells show.
   */
  method MatrixTable(data: NvgTest, cells: seq<seq<Option<real>>>, inputs: seq<Option<real>>)
    returns (shown: seq<real>)
    requires data.Valid()
    requires |cells| == 2 && (forall i | 0 <= i < 2 :: |cells[i]| == 2) && |inputs| == 2
    modifies data`matrix, data`miscVector
    ensures data.Valid()
    // Exactly the four entries with i, j < 2 are editable, each by parse-or-ignore.
    ensures forall i, j | 0 <= i < 3 && 0 <= j < 3 ::
      Entry(data.matrix, i, j)
        == if i < 2 && j < 2 then ParseOrKeep(Entry(old(data.matrix), i, j), cells[i][j]) else Entry(old(data.matrix), i, j)
    ensures forall i | 0 <= i < 2 :: Comp2(data.miscVector, i) == ParseOrKeep(Comp2(old(data.miscVector), i), inputs[i])
    // Output row 0 is drawn after row 0's edits and before row 1's; output row 1 sees them all.
    ensures |shown| == 2
    ensures shown[0] == Transform(data.matrix.(c1 := old(data.matrix).c1), data.miscVector.(y := old(data.miscVector).y)).x
    ensures shown[1] == Transform(data.matrix, data.miscVector).y
  {
    shown := [];
    for i := 0 to 2
      invariant data.Valid()
      invariant |shown| == i
      invariant forall k, l | 0 <= k < 3 && 0 <= l < 3 ::
        Entry(data.matrix, k, l)
          == if k < i && l < 2 then ParseOrKeep(Entry(old(data.matrix), k, l), cells[k][l]) else Entry(old(data.matrix), k, l)
      invariant forall k | 0 <= k < 2 ::
        Comp2(data.miscVector, k)
          == if k < i then ParseOrKeep(Comp2(old(data.miscVector), k), inputs[k]) else Comp2(old(data.miscVector), k)
      invariant forall k | i <= k < 3 :: Column(data.matrix, k) == Column(old(data.matrix), k)
      invariant i <= 1 ==> data.miscVector.y == old(data.miscVector).y
      invariant 1 <= i ==>
        shown[0] == Transform(data.matrix.(c1 := old(data.matrix).c1), data.miscVector.(y := old(data.miscVector).y)).x
      invariant 2 <= i ==> shown[1] == Transform(data.matrix, data.miscVector).y
    {
      ghost var rowStart, vectorStart := data.matrix, data.miscVector;
      for j := 0 to 2
        modifies data`matrix
        invariant data.Valid()
        invariant forall k, l | 0 <= k < 3 && 0 <= l < 3 ::
          Entry(data.matrix, k, l)
            == if (k < i && l < 2) || (k == i && l < j) then ParseOrKeep(Entry(old(data.matrix), k, l), cells[k][l])
               else Entry(old(data.matrix), k, l)
        invariant forall k | 0 <= k < 3 && k != i :: Column(data.matrix, k) == Column(rowStart, k)
      {
        EditMatrixCell(data, i, j, cells[i][j]);
      }
      EditInputCell(data, i, inputs[i]);
      shown := shown + [Comp2(Transform(data.matrix, data.miscVector), i)];
      if i == 0 {
        assert Column(data.matrix, 1) == Column(old(data.matrix), 1);
        assert data.matrix.(c1 := old(data.matrix).c1) == data.matrix;
        assert Comp2(data.miscVector, 1) == Comp2(vectorStart, 1);
      } else {
        assert Column(data.matrix, 0) == Column(rowStart, 0) && Column(data.matrix, 2) == Column(rowStart, 2);
        assert Comp2(data.miscVector, 0) == Comp2(vectorStart, 0);
      }
    }
  }

  /** The "Drag to scale!" dragger: when it reports a change, `matrix := scale(s, s) * matrix`. */
  method ScaleDrag(data: NvgTest, changed: bool, s: real)
    requires data.Valid()
    modifies data`matrix
    ensures data.Valid()
    ensures data.matrix == if changed then Mul(Scaling(s), old(data.matrix)) else old(data.matrix)
    ensures changed ==> forall p :: Transform(data.matrix, p) == Vec2(s * Transform(old(data.matrix), p).x, s * Transform(old(data.matrix), p).y)
  {
    if changed {
      ghost var before := data.matrix;
      ScalingKeepsLinearMap(s, data.matrix);
      data.matrix := Mul(Scaling(s), data.matrix);
      forall p ensures Transform(data.matrix, p) == Vec2(s * Transform(before, p).x, s * Transform(before, p).y) {
        ScaledTransform(s, before, p);
      }
    }
  }

  /** The "Generate Dots" button: clear, then generate 20, so exactly the 20 new draws remain. */
  method GenerateDotsButton(data: NvgTest, samples: seq<Vec2>)
    requires data.Valid()
    requires |samples| == 20 && AllInUnitSquare(samples)
    modifies data`dots
    ensures data.Valid()
    ensures data.dots == samples && |data.dots| == 20
  {
    data.ClearDots();
    data.GenerateDots(20, samples);
  }

  /** The "Clear Dots" button. */
  method ClearDotsButton(data: NvgTest)
    requires data.Valid()
    modifies data`dots
    ensures data.Valid()
    ensures data.dots == []
  {
    data.ClearDots();
  }

  /** The "Reset" button: the matrix becomes the identity, whatever it was. */
  method ResetButton(data: NvgTest)
    requires data.Valid()
    modifies data`matrix
    ensures data.Valid()
    ensures data.matrix == Identity()
    ensures forall p :: Transform(data.matrix, p) == p
  {
    data.matrix := Identity();
  }
}
