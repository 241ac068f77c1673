/**
 * Integer matrices: nested arrays flattened row by row, multiplied with running indices, and
 * transposed.
 */
module Matrix {
  import opened Text

  type Matrix = seq<seq<int>>

  // -------------------------------------------------------------------------
  // What the operations mean
  // -------------------------------------------------------------------------

  /** At least one row, and all rows as long as the first. */
  predicate Rectangular(a: Matrix) {
    a != [] && forall i :: 0 <= i < |a| ==> |a[i]| == |a[0]|
  }

  function Columns(a: Matrix): nat
    requires a != []
  {
    |a[0]|
  }

  /** An element, or zero outside the matrix. */
  function Cell(a: Matrix, i: nat, j: nat): int {
    if i < |a| && j < |a[i]| then a[i][j] else 0
  }

  function Sum(n: nat, f: nat -> int): int {
    if n == 0 then 0 else Sum(n - 1, f) + f(n - 1)
  }

  /** The summands of one element of a product. */
  function Terms(a: Matrix, b: Matrix, i: nat, j: nat): nat -> int {
    (r: nat) => Cell(a, i, r) * Cell(b, r, j)
  }

  /** The mathematical product. */
  function Product(a: Matrix, b: Matrix): (c: Matrix)
    requires Rectangular(a) && Rectangular(b)
    ensures |c| == |a| && Rectangular(c) && Columns(c) == Columns(b)
    ensures forall i, j :: 0 <= i < |a| && 0 <= j < Columns(b) ==> c[i][j] == Sum(|b|, Terms(a, b, i, j))
  {
    seq(|a|, i requires 0 <= i < |a| => ProductRow(a, b, i, Columns(b)))
  }

  function ProductRow(a: Matrix, b: Matrix, i: nat, length: nat): (row: seq<int>)
    ensures |row| == length
    ensures forall j :: 0 <= j < length ==> row[j] == Sum(|b|, Terms(a, b, i, j))
  {
    seq(length, j requires 0 <= j < length => Sum(|b|, Terms(a, b, i, j)))
  }

  /** The product, or nothing for ragged or empty matrices and for those that do not conform. */
  function Mul(a: Matrix, b: Matrix): Option<Matrix> {
    if Rectangular(a) && Rectangular(b) && Columns(a) == |b| then Some(Product(a, b)) else None
  }

  function Column(a: Matrix, j: nat, length: nat): (c: seq<int>)
    requires length <= |a|
    ensures |c| == length && forall i :: 0 <= i < length ==> c[i] == Cell(a, i, j)
  {
    seq(length, i requires 0 <= i < length => Cell(a, i, j))
  }

  /** Columns as rows. */
  function Transposed(a: Matrix): (t: Matrix)
    requires a != []
    ensures |t| == Columns(a)
    ensures forall j :: 0 <= j < Columns(a) ==> |t[j]| == |a|
    ensures forall j, i :: 0 <= j < Columns(a) && 0 <= i < |a| ==> t[j][i] == Cell(a, i, j)
  {
    seq(Columns(a), j requires 0 <= j < Columns(a) => Column(a, j, |a|))
  }

  function Transpose(a: Matrix): Option<Matrix> {
    if Rectangular(a) then Some(Transposed(a)) else None
  }

  // -------------------------------------------------------------------------
  // The routines
  // -------------------------------------------------------------------------

  /** All elements, row by row. */
  function Flat(a: Matrix): seq<int> {
    if a == [] then [] else Flat(a[..|a| - 1]) + a[|a| - 1]
  }

  lemma RowsAdd(x: int, y: int, n: int)
    ensures (x + y) * n == x * n + y * n
  {
  }

  /** Row by row, index i * n + j stays inside and leads to row i, column j. */
  lemma {:induction false} FlatAt(a: Matrix, n: nat, i: nat, j: nat)
    requires forall k :: 0 <= k < |a| ==> |a[k]| == n
    requires i < |a| && j < n
    ensures 0 <= i * n + j < |Flat(a)| && Flat(a)[i * n + j] == a[i][j]
  {
    FlatLength(a, n);
    var init := a[..|a| - 1];
    FlatLength(init, n);
    RowsAdd(|a| - 1, 1, n);
    if i < |a| - 1 {
      FlatAt(init, n, i, j);
    }
  }

  lemma {:induction false} FlatLength(a: Matrix, n: nat)
    requires forall k :: 0 <= k < |a| ==> |a[k]| == n
    ensures |Flat(a)| == |a| * n
  {
    if a != [] {
      FlatLength(a[..|a| - 1], n);
      RowsAdd(|a| - 1, 1, n);
    }
  }

  /** The flattened matrix with its numbers of rows and columns; nothing is promised on failure. */
  method InitMatrix(rows: Matrix) returns (ok: bool, m: nat, n: nat, matrix: array<int>)
    ensures ok <==> Rectangular(rows)
    ensures ok ==> m == |rows| && n == Columns(rows) && matrix[..] == Flat(rows)
    ensures fresh(matrix)
  {
    m, n := |rows|, 0;
    matrix := new int[0];
    if m == 0 {
      return false, m, n, matrix;
    }
    n := |rows[0]|;
    matrix := new int[m * n];
    var idx := 0;
    var i := 0;
    while i < m
      invariant 0 <= i <= m && idx == i * n
      invariant forall k :: 0 <= k < i ==> |rows[k]| == n
      invariant idx <= matrix.Length && matrix[..idx] == Flat(rows[..i])
    {
      RowsAdd(i, 1, n);
      RowFits(i, m, n);
      if |rows[i]| != n {
        return false, m, n, matrix;
      }
      var j := 0;
      while j < n
        invariant 0 <= j <= n && idx == i * n + j <= matrix.Length
        invariant matrix[..idx] == Flat(rows[..i]) + rows[i][..j]
      {
        matrix[idx] := rows[i][j];
        idx := idx + 1;
        j := j + 1;
        assert matrix[..idx] == matrix[..idx - 1] + [rows[i][j - 1]];
        assert rows[i][..j] == rows[i][..j - 1] + [rows[i][j - 1]];
      }
      assert rows[i][..n] == rows[i];
      assert rows[..i + 1][..i] == rows[..i];
      i := i + 1;
    }
    assert rows[..m] == rows;
    ok := true;
  }

  lemma RowFits(i: nat, m: nat, n: nat)
    requires i < m
    ensures i * n + n <= m * n
  {
    RowsAdd(i + 1, m - i - 1, n);
    RowsAdd(i, 1, n);
  }

  /** One element: a stride of one in the left matrix, of a whole row in the right one. */
  method Element(ghost a: Matrix, left: array<int>, start: nat, ghost b: Matrix, right: array<int>,
                 n: nat, p: nat, ghost i: nat, j: nat)
    returns (elem: int)
    requires Rectangular(a) && left[..] == Flat(a) && Columns(a) == n && i < |a| && start == i * n
    requires Rectangular(b) && right[..] == Flat(b) && Columns(b) == p && |b| == n && j < p
    ensures elem == Sum(n, Terms(a, b, i, j))
  {
    elem := 0;
    var aIdx, bIdx := start, j;
    var r := 0;
    while r < n
      invariant 0 <= r <= n && aIdx == i * n + r && bIdx == r * p + j
      invariant elem == Sum(r, Terms(a, b, i, j))
    {
      FlatAt(a, n, i, r);
      FlatAt(b, p, r, j);
      elem := elem + left[aIdx] * right[bIdx];
      RowsAdd(r, 1, p);
      r, aIdx, bIdx := r + 1, aIdx + 1, bIdx + p;
    }
  }

  /** Multiplies two nested arrays of integers. */
  method Multiply(matrix: Matrix, matrix2: Matrix) returns (result: Option<Matrix>)
    ensures result == Mul(matrix, matrix2)
  {
    var ok, m, n, a := InitMatrix(matrix);
    if !ok {
      return None;
    }
    var ok2, m2, p, b := InitMatrix(matrix2);
    if !ok2 || n != m2 {
      return None;
    }
    var rows := [];
    var aStart := 0;
    var i := 0;
    while i < m
      invariant 0 <= i <= m && aStart == i * n && |rows| == i
      invariant forall k :: 0 <= k < i ==> rows[k] == ProductRow(matrix, matrix2, k, p)
      invariant a[..] == Flat(matrix) && b[..] == Flat(matrix2)
    {
      var row := [];
      var j := 0;
      while j < p
        invariant 0 <= j <= p
        invariant row == ProductRow(matrix, matrix2, i, j)
        invariant a[..] == Flat(matrix) && b[..] == Flat(matrix2)
      {
        var elem := Element(matrix, a, aStart, matrix2, b, n, p, i, j);
        row := row + [elem];
        j := j + 1;
      }
      rows := rows + [row];
      RowsAdd(i, 1, n);
      i, aStart := i + 1, aStart + n;
    }
    assert rows == Product(matrix, matrix2);
    result := Some(rows);
  }

  /** One column, read off the flat buffer. */
  method ReadColumn(ghost matrix: Matrix, data: array<int>, m: nat, n: nat, j: nat) returns (row: seq<int>)
    requires Rectangular(matrix) && data[..] == Flat(matrix) && m == |matrix| && n == Columns(matrix) && j < n
    ensures row == Column(matrix, j, m)
  {
    row := [];
    var i := 0;
    while i < m
      invariant 0 <= i <= m && row == Column(matrix, j, i)
    {
      FlatAt(matrix, n, i, j);
      row := row + [data[i * n + j]];
      i := i + 1;
    }
  }

  /** Transposes a nested array. */
  method TransposeRows(matrix: Matrix) returns (result: Option<Matrix>)
    ensures result == Transpose(matrix)
  {
    var ok, m, n, data := InitMatrix(matrix);
    if !ok {
      return None;
    }
    var rows := [];
    var j := 0;
    while j < n
      invariant 0 <= j <= n && |rows| == j && data[..] == Flat(matrix)
      invariant forall k :: 0 <= k < j ==> rows[k] == Column(matrix, k, m)
    {
      var row := ReadColumn(matrix, data, m, n, j);
      rows := rows + [row];
      j := j + 1;
    }
    assert rows == Transposed(matrix);
    result := Some(rows);
  }

  // -------------------------------------------------------------------------
  // Sums
  // -------------------------------------------------------------------------

  lemma {:induction false} SumEqual(n: nat, f: nat -> int, g: nat -> int)
    requires forall k: nat :: k < n ==> f(k) == g(k)
    ensures Sum(n, f) == Sum(n, g)
  {
    if n > 0 {
      SumEqual(n - 1, f, g);
    }
  }

  lemma {:induction false} SumPlus(n: nat, f: nat -> int, g: nat -> int, h: nat -> int)
    requires forall k: nat :: k < n ==> h(k) == f(k) + g(k)
    ensures Sum(n, h) == Sum(n, f) + Sum(n, g)
  {
    if n > 0 {
      SumPlus(n - 1, f, g, h);
    }
  }

  lemma {:induction false} SumTimes(n: nat, c: int, f: nat -> int, g: nat -> int)
    requires forall k: nat :: k < n ==> g(k) == c * f(k)
    ensures Sum(n, g) == c * Sum(n, f)
  {
    if n > 0 {
      SumTimes(n - 1, c, f, g);
      assert c * (Sum(n - 1, f) + f(n - 1)) == c * Sum(n - 1, f) + c * f(n - 1);
    }
  }

  /** A row and a column of a table, and the sums of all of them. */
  function RowOf(f: (nat, nat) -> int, i: nat): nat -> int {
    (j: nat) => f(i, j)
  }

  function ColumnOf(f: (nat, nat) -> int, j: nat): nat -> int {
    (i: nat) => f(i, j)
  }

  function RowSums(f: (nat, nat) -> int, n: nat): nat -> int {
    (i: nat) => Sum(n, RowOf(f, i))
  }

  function ColumnSums(f: (nat, nat) -> int, m: nat): nat -> int {
    (j: nat) => Sum(m, ColumnOf(f, j))
  }

  /** A finite table sums to the same by rows and by columns. */
  lemma {:induction false} SumSwap(m: nat, n: nat, f: (nat, nat) -> int)
    ensures Sum(m, RowSums(f, n)) == Sum(n, ColumnSums(f, m))
  {
    if m == 0 {
      SumTimes(n, 0, ColumnSums(f, m), ColumnSums(f, m));
    } else {
      SumSwap(m - 1, n, f);
      SumPlus(n, ColumnSums(f, m - 1), RowOf(f, m - 1), ColumnSums(f, m));
    }
  }

  // -------------------------------------------------------------------------
  // Laws
  // -------------------------------------------------------------------------

  /** The summands of an element of a triple product. */
  function Triple(a: Matrix, b: Matrix, c: Matrix, i: nat, j: nat): (nat, nat) -> int {
    (k: nat, r: nat) => Cell(a, i, k) * Cell(b, k, r) * Cell(c, r, j)
  }

  lemma Regroup(x: int, y: int, z: int)
    ensures x * y * z == z * (x * y) == x * (y * z)
  {
  }

  lemma LeftTriple(a: Matrix, b: Matrix, c: Matrix, i: nat, j: nat, r: nat)
    requires Mul(a, b).Some? && i < |a| && r < Columns(b)
    ensures Terms(Product(a, b), c, i, j)(r) == ColumnSums(Triple(a, b, c, i, j), |b|)(r)
  {
    var column := ColumnOf(Triple(a, b, c, i, j), r);
    forall k: nat
      ensures column(k) == Cell(c, r, j) * Terms(a, b, i, r)(k)
    {
      Regroup(Cell(a, i, k), Cell(b, k, r), Cell(c, r, j));
    }
    SumTimes(|b|, Cell(c, r, j), Terms(a, b, i, r), column);
  }

  lemma RightTriple(a: Matrix, b: Matrix, c: Matrix, i: nat, j: nat, k: nat)
    requires Mul(b, c).Some? && k < |b| && j < Columns(c)
    ensures Terms(a, Product(b, c), i, j)(k) == RowSums(Triple(a, b, c, i, j), |c|)(k)
  {
    var row := RowOf(Triple(a, b, c, i, j), k);
    forall r: nat
      ensures row(r) == Cell(a, i, k) * Terms(b, c, k, j)(r)
    {
      Regroup(Cell(a, i, k), Cell(b, k, r), Cell(c, r, j));
    }
    SumTimes(|c|, Cell(a, i, k), Terms(b, c, k, j), row);
  }

  lemma TripleEntry(a: Matrix, b: Matrix, c: Matrix, i: nat, j: nat)
    requires Mul(a, b).Some? && Mul(b, c).Some? && i < |a| && j < Columns(c)
    ensures Product(Product(a, b), c)[i][j] == Product(a, Product(b, c))[i][j]
  {
    var f := Triple(a, b, c, i, j);
    forall r: nat | r < |c|
      ensures Terms(Product(a, b), c, i, j)(r) == ColumnSums(f, |b|)(r)
    {
      LeftTriple(a, b, c, i, j, r);
    }
    SumEqual(|c|, Terms(Product(a, b), c, i, j), ColumnSums(f, |b|));
    forall k: nat | k < |b|
      ensures Terms(a, Product(b, c), i, j)(k) == RowSums(f, |c|)(k)
    {
      RightTriple(a, b, c, i, j, k);
    }
    SumEqual(|b|, Terms(a, Product(b, c), i, j), RowSums(f, |c|));
    SumSwap(|b|, |c|, f);
  }

  function MulLeftFirst(a: Matrix, b: Matrix, c: Matrix): Option<Matrix> {
    match Mul(a, b) case None => None case Some(ab) => Mul(ab, c)
  }

  function MulRightFirst(a: Matrix, b: Matrix, c: Matrix): Option<Matrix> {
    match Mul(b, c) case None => None case Some(bc) => Mul(a, bc)
  }

  /** Multiplication is associative, and it fails for one grouping exactly when it fails for the other. */
  lemma MulIsAssociative(a: Matrix, b: Matrix, c: Matrix)
    ensures MulLeftFirst(a, b, c) == MulRightFirst(a, b, c)
  {
    if Mul(a, b).Some? && Mul(b, c).Some? {
      var left, right := Product(Product(a, b), c), Product(a, Product(b, c));
      forall i, j | 0 <= i < |a| && 0 <= j < Columns(c)
        ensures left[i][j] == right[i][j]
      {
        TripleEntry(a, b, c, i, j);
      }
      EqualByCells(left, right);
    }
  }

  lemma EqualByCells(a: Matrix, b: Matrix)
    requires Rectangular(a) && Rectangular(b) && |a| == |b| && Columns(a) == Columns(b)
    requires forall i, j :: 0 <= i < |a| && 0 <= j < Columns(a) ==> a[i][j] == b[i][j]
    ensures a == b
  {
    forall i | 0 <= i < |a|
      ensures a[i] == b[i]
    {
      assert forall j :: 0 <= j < |a[i]| ==> a[i][j] == b[i][j];
    }
  }

  /** Transposing twice gives the matrix back exactly when it has a column. */
  lemma TransposeTwiceIff(a: Matrix)
    requires Rectangular(a)
    ensures Transpose(Transposed(a)) == Some(a) <==> Columns(a) > 0
    ensures Columns(a) == 0 ==> Transpose(Transposed(a)) == None
  {
    if Columns(a) > 0 {
      var t := Transposed(a);
      assert Rectangular(t) && Columns(t) == |a|;
      EqualByCells(Transposed(t), a);
    }
  }

  /** The transpose of a product is the product of the transposes in the other order exactly when
      the product has a column. */
  lemma TransposeOfProductIff(a: Matrix, b: Matrix)
    requires Mul(a, b).Some?
    ensures Transpose(a).Some? && Transpose(b).Some?
    ensures Transpose(Mul(a, b).value) == Mul(Transpose(b).value, Transpose(a).value) <==> Columns(b) > 0
  {
    if Columns(b) > 0 {
      TransposeOfProduct(a, b);
    }
  }

  lemma TransposeOfProduct(a: Matrix, b: Matrix)
    requires Mul(a, b).Some? && Columns(b) > 0
    ensures Transpose(Mul(a, b).value) == Mul(Transposed(b), Transposed(a))
  {
    var ta, tb := Transposed(a), Transposed(b);
    var left := Transposed(Product(a, b));
    assert Rectangular(ta) && Rectangular(tb) && Columns(tb) == |b| == |ta|;
    var right := Product(tb, ta);
    forall j, i | 0 <= j < Columns(b) && 0 <= i < |a|
      ensures left[j][i] == right[j][i]
    {
      assert forall r: nat :: r < |b| ==> Terms(a, b, i, j)(r) == Terms(tb, ta, j, i)(r);
      SumEqual(|b|, Terms(a, b, i, j), Terms(tb, ta, j, i));
    }
    EqualByCells(left, right);
  }

  // -------------------------------------------------------------------------
  // Element by element
  // -------------------------------------------------------------------------

  /** There is a row, and any two rows are of one length. */
  predicate IsMatrix(a: Matrix) {
    |a| > 0 && forall i, k :: 0 <= i < k < |a| ==> |a[i]| == |a[k]|
  }

  function Dot(x: seq<int>, y: seq<int>): int
    requires |x| == |y|
  {
    if |x| == 0 then 0 else x[0] * y[0] + Dot(x[1..], y[1..])
  }

  /** The j-th elements of all rows. */
  function Down(b: Matrix, j: nat): (c: seq<int>)
    requires forall k :: 0 <= k < |b| ==> j < |b[k]|
    ensures |c| == |b| && forall k :: 0 <= k < |b| ==> c[k] == b[k][j]
  {
    seq(|b|, k requires 0 <= k < |b| => b[k][j])
  }

  lemma {:induction false} DotAppends(x: seq<int>, y: seq<int>, p: int, q: int)
    requires |x| == |y|
    ensures Dot(x + [p], y + [q]) == Dot(x, y) + p * q
  {
    if x == [] {
      assert [p][1..] == [] && [q][1..] == [];
      assert x + [p] == [p] && y + [q] == [q];
    } else {
      assert (x + [p])[1..] == x[1..] + [p] && (y + [q])[1..] == y[1..] + [q];
      DotAppends(x[1..], y[1..], p, q);
    }
  }

  lemma {:induction false} SumIsDot(a: Matrix, b: Matrix, i: nat, j: nat, n: nat)
    requires i < |a| && n <= |a[i]| && n <= |b| && forall k :: 0 <= k < |b| ==> j < |b[k]|
    ensures Sum(n, Terms(a, b, i, j)) == Dot(a[i][..n], Down(b, j)[..n])
  {
    if n > 0 {
      SumIsDot(a, b, i, j, n - 1);
      DotAppends(a[i][..n - 1], Down(b, j)[..n - 1], a[i][n - 1], b[n - 1][j]);
      assert a[i][..n] == a[i][..n - 1] + [a[i][n - 1]];
      assert Down(b, j)[..n] == Down(b, j)[..n - 1] + [b[n - 1][j]];
    }
  }

  /** The product is defined exactly for two matrices that conform; row i and column j of it hold
      the dot product of row i and column j. */
  lemma ProductIsOfDots(a: Matrix, b: Matrix)
    ensures Mul(a, b).Some? <==> IsMatrix(a) && IsMatrix(b) && |a[0]| == |b|
    ensures Mul(a, b).Some? ==>
              var c := Mul(a, b).value;
              && |c| == |a| && (forall i :: 0 <= i < |a| ==> |c[i]| == |b[0]|)
              && forall i, j :: 0 <= i < |a| && 0 <= j < |b[0]| ==> c[i][j] == Dot(a[i], Down(b, j))
  {
    if Mul(a, b).Some? {
      var c := Mul(a, b).value;
      forall i, j | 0 <= i < |a| && 0 <= j < |b[0]|
        ensures c[i][j] == Dot(a[i], Down(b, j))
      {
        SumIsDot(a, b, i, j, |b|);
        assert a[i][..|b|] == a[i] && Down(b, j)[..|b|] == Down(b, j);
      }
    }
  }

  /** The transpose is defined exactly for matrices, and its element in row j and column i is that
      in row i and column j. */
  lemma TransposeIsOfColumns(a: Matrix)
    ensures Transpose(a).Some? <==> IsMatrix(a)
    ensures Transpose(a).Some? ==>
              var t := Transpose(a).value;
              && |t| == |a[0]| && (forall j :: 0 <= j < |t| ==> |t[j]| == |a|)
              && forall i, j :: 0 <= i < |a| && 0 <= j < |a[0]| ==> t[j][i] == a[i][j]
  {
  }

  /** Ones on the diagonal. */
  function Identity(n: nat): (m: Matrix)
    ensures |m| == n && forall i :: 0 <= i < n ==> |m[i]| == n
    ensures forall i, j :: 0 <= i < n && 0 <= j < n ==> m[i][j] == if i == j then 1 else 0
  {
    seq(n, i requires 0 <= i < n => seq(n, j requires 0 <= j < n => if i == j then 1 else 0))
  }

  lemma {:induction false} SumPicks(n: nat, f: nat -> int, at: nat)
    requires forall k: nat :: k < n && k != at ==> f(k) == 0
    ensures Sum(n, f) == if at < n then f(at) else 0
  {
    if n > 0 {
      SumPicks(n - 1, f, at);
    }
  }

  /** Multiplying by the identity, on either side, gives the matrix back. */
  lemma IdentityIsNeutral(a: Matrix)
    requires IsMatrix(a)
    ensures |a[0]| > 0 ==> Mul(a, Identity(|a[0]|)) == Some(a)
    ensures Mul(Identity(|a|), a) == Some(a)
  {
    if |a[0]| > 0 {
      var c := Product(a, Identity(|a[0]|));
      forall i, j | 0 <= i < |a| && 0 <= j < |a[0]|
        ensures c[i][j] == a[i][j]
      {
        SumPicks(|a[0]|, Terms(a, Identity(|a[0]|), i, j), j);
      }
      assert forall i :: 0 <= i < |a| ==> c[i] == a[i];
      assert c == a;
    }
    var d := Product(Identity(|a|), a);
    forall i, j | 0 <= i < |a| && 0 <= j < |a[0]|
      ensures d[i][j] == a[i][j]
    {
      SumPicks(|a|, Terms(Identity(|a|), a, i, j), i);
    }
    assert forall i :: 0 <= i < |a| ==> d[i] == a[i];
    assert d == a;
  }
}
