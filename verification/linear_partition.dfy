/**
 * The balanced row partition behind the video grid: split a sequence of
 * integer weights into k contiguous rows so that the largest row sum is as
 * small as possible.
 *
 * The source fills two flat, row-major tables: `tmpTable` (n x k) holds the
 * best achievable largest row sum for the first i+1 weights split into j+1
 * rows, and `solution` ((n-1) x (k-1)) holds the split point chosen for each
 * cell.  `Table`, `Best` and `Cost` below are the reference definition of
 * those cells; the methods fill flat tables exactly as the source does and
 * are proved to agree with them.
 */
module LinearPartition {

  // ---------------------------------------------------------------------
  // Sums, rows and the quality of a partition
  // ---------------------------------------------------------------------

  function Max(a: int, b: int): int {
    if a >= b then a else b
  }

  /** Sum of a sequence of weights. */
  function Sum(s: seq<int>): int {
    if |s| == 0 then 0 else Sum(s[..|s| - 1]) + s[|s| - 1]
  }

  /** Sum of the first i+1 weights: column 0 of the source's cost table. */
  function PrefixSum(w: seq<int>, i: int): int
    requires 0 <= i < |w|
  {
    Sum(w[..i + 1])
  }

  /** The rows of a partition written one after the other. */
  function Flatten(rows: seq<seq<int>>): seq<int> {
    if |rows| == 0 then [] else Flatten(rows[..|rows| - 1]) + rows[|rows| - 1]
  }

  /** The largest row sum of a non-empty list of rows. */
  function MaxRowSum(rows: seq<seq<int>>): int
    requires |rows| > 0
  {
    if |rows| == 1 then Sum(rows[0])
    else Max(MaxRowSum(rows[..|rows| - 1]), Sum(rows[|rows| - 1]))
  }

  predicate NonNegative(w: seq<int>) {
    forall i :: 0 <= i < |w| ==> w[i] >= 0
  }

  /** `rows` is a split of `w` into exactly k contiguous (possibly empty) rows. */
  ghost predicate IsPartition(w: seq<int>, k: int, rows: seq<seq<int>>) {
    |rows| == k && Flatten(rows) == w
  }

  /** No split of `w` into k contiguous rows has a smaller largest row sum. */
  ghost predicate IsOptimal(w: seq<int>, k: int, rows: seq<seq<int>>)
    requires k > 0 && |rows| > 0
  {
    forall p :: IsPartition(w, k, p) ==> MaxRowSum(rows) <= MaxRowSum(p)
  }

  // ---------------------------------------------------------------------
  // Reference definition of the dynamic program
  // ---------------------------------------------------------------------

  /** A split point together with the cost of splitting there. */
  datatype Split = Split(x: int, cost: int)

  /**
   * Cost of cell (i, j) when the last row is weights x+1..i: the larger of
   * the best cost of the first x+1 weights in j rows and the last row's sum.
   */
  function Cost(w: seq<int>, i: int, j: int, x: int): int
    requires 0 <= x < i < |w| && j >= 1
    decreases j, 0, 0
  {
    Max(Table(w, x, j - 1), PrefixSum(w, i) - PrefixSum(w, x))
  }

  /**
   * The source's scan over split points 0..m-1 for cell (i, j): the first
   * split point of least cost (a later point replaces the current one only
   * when it is strictly cheaper).
   */
  function Best(w: seq<int>, i: int, j: int, m: int): (b: Split)
    requires 1 <= m <= i < |w| && j >= 1
    decreases j, 1, m
    ensures 0 <= b.x < m
    ensures b.cost == Cost(w, i, j, b.x)
    ensures forall x :: 0 <= x < m ==> b.cost <= Cost(w, i, j, x)
    ensures forall x :: 0 <= x < b.x ==> b.cost < Cost(w, i, j, x)
  {
    if m == 1 then Split(0, Cost(w, i, j, 0))
    else
      var prev := Best(w, i, j, m - 1);
      var c := Cost(w, i, j, m - 1);
      if c < prev.cost then Split(m - 1, c) else prev
  }

  /** Cell (i, j) of the source's `tmpTable`. */
  function Table(w: seq<int>, i: int, j: int): int
    requires 0 <= i < |w| && j >= 0
    decreases j, 2, 0
  {
    if j == 0 then PrefixSum(w, i)
    else if i == 0 then w[0]
    else Best(w, i, j, i).cost
  }

  // ---------------------------------------------------------------------
  // Row-major flat tables (NH_LP_TABLE_LOOKUP / NH_LP_TABLE_LOOKUP_SET)
  // ---------------------------------------------------------------------

  /** Index of cell (i, j) in a flat table whose rows have `rowSize` cells. */
  function Cell(i: int, j: int, rowSize: int): int {
    i * rowSize + j
  }

  /** Index in the split table of cell (i, j), whose rows and columns start at 1. */
  function SplitCell(i: int, j: int, k: int): int {
    Cell(i - 1, j - 1, k - 1)
  }

  lemma MulMonotone(a: int, b: int, c: int)
    requires 0 <= a <= b && c >= 0
    ensures 0 <= a * c <= b * c
  {
    assert b * c - a * c == (b - a) * c;
  }

  /** A cell of a table with `rows` rows lies inside the flat array. */
  lemma CellBounds(i: int, j: int, rows: int, rowSize: int)
    requires 0 <= i < rows && 0 <= j < rowSize
    ensures 0 <= Cell(i, j, rowSize) < rows * rowSize
  {
    MulMonotone(i, rows - 1, rowSize);
    assert (rows - 1) * rowSize + rowSize == rows * rowSize;
  }

  /** Distinct cells of a table occupy distinct places of the flat array. */
  lemma CellInjective(i: int, j: int, i': int, j': int, rowSize: int)
    requires 0 <= i && 0 <= i' && 0 <= j < rowSize && 0 <= j' < rowSize
    requires i != i' || j != j'
    ensures Cell(i, j, rowSize) != Cell(i', j', rowSize)
  {
    if i < i' {
      MulMonotone(1, i' - i, rowSize);
      assert i' * rowSize - i * rowSize == (i' - i) * rowSize;
    } else if i' < i {
      MulMonotone(1, i - i', rowSize);
      assert i * rowSize - i' * rowSize == (i - i') * rowSize;
    }
  }

  /** The cells of `tmpTable` filled so far: column 0, rows before i, and row i before column j. */
  ghost predicate CostsFilled(w: seq<int>, k: int, t: seq<int>, i: int, j: int)
    requires k >= 1
  {
    forall i', j' ::
      0 <= i' < |w| && 0 <= j' < k && (j' == 0 || i' < i || (i' == i && j' < j)) ==>
        0 <= Cell(i', j', k) < |t| && t[Cell(i', j', k)] == Table(w, i', j')
  }

  /** The cells of `solution` filled so far: rows before i, and row i before column j. */
  ghost predicate SplitsFilled(w: seq<int>, k: int, s: seq<int>, i: int, j: int)
    requires k >= 1
  {
    forall i', j' ::
      1 <= i' < |w| && 1 <= j' < k && (i' < i || (i' == i && j' < j)) ==>
        0 <= SplitCell(i', j', k) < |s| && s[SplitCell(i', j', k)] == Best(w, i', j', i').x
  }

  /**
   * What the source's `linearPartitionTable` returns: for every cell, the
   * first split point of least cost, which lies in 0..i-1.
   */
  ghost predicate IsSolutionTable(w: seq<int>, k: int, s: seq<int>)
    requires k >= 1
  {
    && |s| == (|w| - 1) * (k - 1)
    && SplitsFilled(w, k, s, |w|, 1)
    && forall i', j' :: 1 <= i' < |w| && 1 <= j' < k ==>
         0 <= SplitCell(i', j', k) < |s| && 0 <= s[SplitCell(i', j', k)] < i'
  }

  lemma StoreCost(w: seq<int>, k: int, t: seq<int>, i: int, j: int, v: int)
    requires k >= 1 && 0 <= i < |w| && 0 <= j < k
    requires |t| == |w| * k
    requires CostsFilled(w, k, t, i, j)
    requires v == Table(w, i, j)
    ensures 0 <= Cell(i, j, k) < |t|
    ensures CostsFilled(w, k, t[Cell(i, j, k) := v], i, j + 1)
  {
    CellBounds(i, j, |w|, k);
    var t' := t[Cell(i, j, k) := v];
    forall i', j' | 0 <= i' < |w| && 0 <= j' < k && (j' == 0 || i' < i || (i' == i && j' < j + 1))
      ensures 0 <= Cell(i', j', k) < |t'| && t'[Cell(i', j', k)] == Table(w, i', j')
    {
      CellBounds(i', j', |w|, k);
      if i' != i || j' != j {
        CellInjective(i, j, i', j', k);
      }
    }
  }

  lemma StoreSplit(w: seq<int>, k: int, s: seq<int>, i: int, j: int, v: int)
    requires k >= 1 && 1 <= i < |w| && 1 <= j < k
    requires |s| == (|w| - 1) * (k - 1)
    requires SplitsFilled(w, k, s, i, j)
    requires v == Best(w, i, j, i).x
    ensures 0 <= SplitCell(i, j, k) < |s|
    ensures SplitsFilled(w, k, s[SplitCell(i, j, k) := v], i, j + 1)
  {
    CellBounds(i - 1, j - 1, |w| - 1, k - 1);
    forall i', j' | 1 <= i' < |w| && 1 <= j' < k && (i' < i || (i' == i && j' < j + 1))
      ensures 0 <= SplitCell(i', j', k) < |s|
      ensures s[SplitCell(i, j, k) := v][SplitCell(i', j', k)] == Best(w, i', j', i').x
    {
      SplitCellsApart(|w| - 1, k, i, j, i', j');
    }
  }

  /** Cells (i, j) and (i', j') of a split table with n rows lie in it, apart unless equal. */
  lemma SplitCellsApart(n: int, k: int, i: int, j: int, i': int, j': int)
    requires k >= 1 && 1 <= i <= n && 1 <= j < k && 1 <= i' <= n && 1 <= j' < k
    ensures 0 <= SplitCell(i, j, k) < n * (k - 1)
    ensures 0 <= SplitCell(i', j', k) < n * (k - 1)
    ensures (i' != i || j' != j) ==> SplitCell(i', j', k) != SplitCell(i, j, k)
  {
    CellBounds(i - 1, j - 1, n, k - 1);
    CellBounds(i' - 1, j' - 1, n, k - 1);
    if i' != i || j' != j {
      CellInjective(i - 1, j - 1, i' - 1, j' - 1, k - 1);
    }
  }

  lemma PrefixSumStep(w: seq<int>, i: int)
    requires 1 <= i < |w|
    ensures PrefixSum(w, i) == PrefixSum(w, i - 1) + w[i]
  {
    assert w[..i + 1][..i] == w[..i];
  }

  // ---------------------------------------------------------------------
  // linearPartitionTable
  // ---------------------------------------------------------------------

  const IntMax: int := 0x7fff_ffff_ffff_ffff

  /** Fills the cost table and returns the table of split points. */
  method LinearPartitionTable(weights: seq<int>, numberOfPartitions: int) returns (solution: seq<int>)
    requires |weights| >= 1 && numberOfPartitions >= 1
    ensures IsSolutionTable(weights, numberOfPartitions, solution)
  {
    var n := |weights|;
    var k := numberOfPartitions;
    var tmpTable := PrefixColumn(weights, k);
    tmpTable := FirstRow(weights, k, tmpTable);
    MulMonotone(0, n - 1, k - 1);
    solution := seq((n - 1) * (k - 1), _ => 0);
    var i := 1;
    while i < n
      invariant 1 <= i <= n
      invariant |tmpTable| == n * k && |solution| == (n - 1) * (k - 1)
      invariant CostsFilled(weights, k, tmpTable, i, 0)
      invariant SplitsFilled(weights, k, solution, i, 1)
    {
      tmpTable, solution := FillRow(weights, k, tmpTable, solution, i);
      i := i + 1;
    }
  }

  /** The source's first loop: column 0 of the cost table holds the prefix sums. */
  method PrefixColumn(weights: seq<int>, k: int) returns (tmpTable: seq<int>)
    requires |weights| >= 1 && k >= 1
    ensures |tmpTable| == |weights| * k
    ensures forall i :: 0 <= i < |weights| ==>
      0 <= Cell(i, 0, k) < |tmpTable| && tmpTable[Cell(i, 0, k)] == PrefixSum(weights, i)
  {
    var n := |weights|;
    MulMonotone(0, n, k);
    tmpTable := seq(n * k, _ => 0);
    var i := 0;
    while i < n
      invariant 0 <= i <= n
      invariant |tmpTable| == n * k
      invariant forall i' :: 0 <= i' < i ==>
        0 <= Cell(i', 0, k) < |tmpTable| && tmpTable[Cell(i', 0, k)] == PrefixSum(weights, i')
    {
      CellBounds(i, 0, n, k);
      var offset := 0;
      if i != 0 {
        CellBounds(i - 1, 0, n, k);
        offset := tmpTable[Cell(i - 1, 0, k)];
        PrefixSumStep(weights, i);
      } else {
        PrefixSumFirst(weights);
      }
      forall i' | 0 <= i' < i ensures Cell(i', 0, k) != Cell(i, 0, k) {
        CellInjective(i', 0, i, 0, k);
      }
      tmpTable := tmpTable[Cell(i, 0, k) := weights[i] + offset];
      i := i + 1;
    }
  }

  /** The source's second loop: every cell of row 0 holds the first weight. */
  method FirstRow(weights: seq<int>, k: int, tmpTable: seq<int>) returns (t: seq<int>)
    requires |weights| >= 1 && k >= 1
    requires |tmpTable| == |weights| * k
    requires forall i :: 0 <= i < |weights| ==>
      0 <= Cell(i, 0, k) < |tmpTable| && tmpTable[Cell(i, 0, k)] == PrefixSum(weights, i)
    ensures |t| == |weights| * k
    ensures CostsFilled(weights, k, t, 1, 0)
  {
    t := tmpTable;
    assert CostsFilled(weights, k, t, 0, 0);
    var j := 0;
    while j < k
      invariant 0 <= j <= k
      invariant |t| == |weights| * k
      invariant CostsFilled(weights, k, t, 0, j)
    {
      TableAtLeastFirst(weights, j);
      StoreCost(weights, k, t, 0, j, weights[0]);
      t := t[Cell(0, j, k) := weights[0]];
      j := j + 1;
    }
  }

  /** One pass of the source's main loop: cells (i, 1..k-1) of both tables. */
  method FillRow(weights: seq<int>, k: int, tmpTable: seq<int>, solution: seq<int>, i: int)
    returns (t: seq<int>, s: seq<int>)
    requires k >= 1 && 1 <= i < |weights|
    requires |tmpTable| == |weights| * k && |solution| == (|weights| - 1) * (k - 1)
    requires CostsFilled(weights, k, tmpTable, i, 0)
    requires SplitsFilled(weights, k, solution, i, 1)
    ensures |t| == |weights| * k && |s| == (|weights| - 1) * (k - 1)
    ensures CostsFilled(weights, k, t, i + 1, 0)
    ensures SplitsFilled(weights, k, s, i + 1, 1)
  {
    t, s := tmpTable, solution;
    var j := 1;
    assert CostsFilled(weights, k, t, i, 1);
    while j < k
      invariant 1 <= j <= k
      invariant |t| == |weights| * k && |s| == (|weights| - 1) * (k - 1)
      invariant CostsFilled(weights, k, t, i, j)
      invariant SplitsFilled(weights, k, s, i, j)
    {
      var currentMin, minX := ScanSplitPoints(weights, k, t, i, j);
      StoreCost(weights, k, t, i, j, currentMin);
      t := t[Cell(i, j, k) := currentMin];
      StoreSplit(weights, k, s, i, j, minX);
      s := s[SplitCell(i, j, k) := minX];
      j := j + 1;
    }
  }

  /** The innermost loop of the source: the first cheapest split point of cell (i, j). */
  method ScanSplitPoints(weights: seq<int>, k: int, tmpTable: seq<int>, i: int, j: int)
    returns (currentMin: int, minX: int)
    requires k >= 1 && 1 <= i < |weights| && 1 <= j < k
    requires |tmpTable| == |weights| * k
    requires CostsFilled(weights, k, tmpTable, i, j)
    ensures Split(minX, currentMin) == Best(weights, i, j, i)
    ensures currentMin == Table(weights, i, j)
  {
    currentMin := 0;
    minX := IntMax;
    var x := 0;
    while x < i
      invariant 0 <= x <= i
      invariant x > 0 ==> Split(minX, currentMin) == Best(weights, i, j, x)
    {
      assert tmpTable[Cell(x, j - 1, k)] == Table(weights, x, j - 1);
      assert tmpTable[Cell(i, 0, k)] == Table(weights, i, 0);
      assert tmpTable[Cell(x, 0, k)] == Table(weights, x, 0);
      var c1 := tmpTable[Cell(x, j - 1, k)];
      var c2 := tmpTable[Cell(i, 0, k)] - tmpTable[Cell(x, 0, k)];
      var cost := Max(c1, c2);
      if x == 0 || cost < currentMin {
        currentMin := cost;
        minX := x;
      }
      x := x + 1;
    }
  }

  // ---------------------------------------------------------------------
  // linearPartitionForWeights
  // ---------------------------------------------------------------------

  /**
   * The source's `linearPartitionForWeights`: no rows for a non-positive
   * count, one singleton row per weight when the count reaches the number of
   * weights, and otherwise exactly k rows, the first one non-empty, whose
   * largest sum is the least any split into k contiguous rows achieves.
   */
  method LinearPartitionForWeights(weights: seq<int>, numberOfPartitions: int) returns (answer: seq<seq<int>>)
    ensures numberOfPartitions <= 0 ==> answer == []
    ensures 0 < numberOfPartitions && |weights| <= numberOfPartitions ==>
      |answer| == |weights| && forall r :: 0 <= r < |answer| ==> answer[r] == [weights[r]]
    ensures 0 < numberOfPartitions < |weights| ==> |answer| == numberOfPartitions && answer[0] != []
    ensures 0 < numberOfPartitions ==> Flatten(answer) == weights
    ensures 0 < numberOfPartitions < |weights| && NonNegative(weights) ==>
      |answer| > 0 && MaxRowSum(answer) == Table(weights, |weights| - 1, numberOfPartitions - 1)
    ensures 0 < numberOfPartitions < |weights| && NonNegative(weights) ==>
      |answer| > 0 && IsOptimal(weights, numberOfPartitions, answer)
  {
    var n := |weights|;
    var k := numberOfPartitions;
    if k <= 0 {
      return [];
    }
    if k >= n {
      answer := Singletons(weights);
      return;
    }
    // The source's `n == 1` branch cannot be taken here, since 1 <= k < n.
    assert n != 1;
    var solution := LinearPartitionTable(weights, k);
    answer := Reconstruct(weights, k, solution);
    if NonNegative(weights) {
      TableIsOptimal(weights, k, answer);
    }
  }

  /** One row per weight, in order. */
  method Singletons(weights: seq<int>) returns (rows: seq<seq<int>>)
    ensures |rows| == |weights| && forall r :: 0 <= r < |rows| ==> rows[r] == [weights[r]]
    ensures Flatten(rows) == weights
  {
    rows := [];
    var t := 0;
    while t < |weights|
      invariant 0 <= t <= |weights|
      invariant |rows| == t
      invariant forall r :: 0 <= r < t ==> rows[r] == [weights[r]]
      invariant Flatten(rows) == weights[..t]
    {
      assert (rows + [[weights[t]]])[..t] == rows;
      assert weights[..t + 1] == weights[..t] + [weights[t]];
      rows := rows + [[weights[t]]];
      t := t + 1;
    }
    assert weights[..|weights|] == weights;
  }

  /**
   * The source's reconstruction: the rows after the first are rebuilt from
   * the split table, and the weights left over become the first row.
   */
  method Reconstruct(weights: seq<int>, k: int, solution: seq<int>) returns (answer: seq<seq<int>>)
    requires 1 <= k < |weights|
    requires IsSolutionTable(weights, k, solution)
    ensures |answer| == k && answer[0] != []
    ensures Flatten(answer) == weights
    ensures NonNegative(weights) ==> MaxRowSum(answer) == Table(weights, |weights| - 1, k - 1)
  {
    var nn, rows := LaterRows(weights, k, solution);
    var first := weights[..nn + 1];
    FlattenPrepend(first, rows);
    assert first + weights[nn + 1..] == weights;
    if |rows| > 0 {
      MaxRowSumPrepend(first, rows);
    } else {
      assert [first] + rows == [first];
    }
    answer := [first] + rows;
  }

  /**
   * The source's loop over k-2 down to 0: each step prepends the row that
   * starts after the recorded split point of the cell still to be split, or
   * an empty row once no weight is left to give it.
   */
  method LaterRows(weights: seq<int>, k: int, solution: seq<int>) returns (nn: int, answer: seq<seq<int>>)
    requires 1 <= k < |weights|
    requires IsSolutionTable(weights, k, solution)
    ensures 0 <= nn < |weights|
    ensures |answer| == k - 1
    ensures Flatten(answer) == weights[nn + 1..]
    ensures NonNegative(weights) ==> Bound(weights, nn, 0, answer) == Table(weights, |weights| - 1, k - 1)
  {
    var kk := k - 2;
    nn := |weights| - 1;
    answer := [];
    RebuiltStart(weights, k);
    while kk >= 0
      invariant Rebuilt(weights, k, nn, kk, answer)
      decreases kk
    {
      if nn < 1 {
        RebuiltEmptyRow(weights, k, nn, kk, answer);
        answer := [[]] + answer;
      } else {
        var x := SplitAt(weights, k, solution, nn, kk + 1);
        RebuiltRow(weights, k, nn, kk, answer, x);
        answer := [weights[x + 1..nn + 1]] + answer;
        nn := x;
      }
      kk := kk - 1;
    }
  }

  /**
   * The reconstruction loop's state: `answer` holds the rows after weight
   * `nn` for the columns above `kk`, and the largest row sum it will end
   * with is the optimum.
   */
  ghost predicate Rebuilt(w: seq<int>, k: int, nn: int, kk: int, answer: seq<seq<int>>) {
    && 1 <= k < |w|
    && -1 <= kk <= k - 2
    && 0 <= nn <= |w| - 1
    && |answer| == k - 2 - kk
    && Flatten(answer) == w[nn + 1..]
    && (NonNegative(w) ==> Bound(w, nn, kk + 1, answer) == Table(w, |w| - 1, k - 1))
  }

  lemma RebuiltStart(w: seq<int>, k: int)
    requires 1 <= k < |w|
    ensures Rebuilt(w, k, |w| - 1, k - 2, [])
  {
    BoundOfNoRows(w, |w| - 1, k - 1);
  }

  lemma RebuiltEmptyRow(w: seq<int>, k: int, nn: int, kk: int, answer: seq<seq<int>>)
    requires Rebuilt(w, k, nn, kk, answer) && kk >= 0 && nn < 1
    ensures Rebuilt(w, k, nn, kk - 1, [[]] + answer)
  {
    if NonNegative(w) {
      EmptyRowKeepsBound(w, kk, answer);
    }
    FlattenPrepend([], answer);
  }

  lemma RebuiltRow(w: seq<int>, k: int, nn: int, kk: int, answer: seq<seq<int>>, x: int)
    requires Rebuilt(w, k, nn, kk, answer) && kk >= 0 && 1 <= nn
    requires x == Best(w, nn, kk + 1, nn).x
    ensures 0 <= x < nn
    ensures Rebuilt(w, k, x, kk - 1, [w[x + 1..nn + 1]] + answer)
  {
    var row := w[x + 1..nn + 1];
    RowKeepsBound(w, nn, kk, x, answer);
    FlattenPrepend(row, answer);
    assert row + w[nn + 1..] == w[x + 1..];
  }

  /** The recorded split point of cell (i, j): the first split of least cost. */
  function SplitAt(weights: seq<int>, k: int, solution: seq<int>, i: int, j: int): (x: int)
    requires 1 <= k && IsSolutionTable(weights, k, solution)
    requires 1 <= i < |weights| && 1 <= j < k
    ensures 0 <= x < i && x == Best(weights, i, j, i).x
  {
    solution[SplitCell(i, j, k)]
  }

  /** A k-row split of all weights that reaches the last table cell is optimal. */
  lemma TableIsOptimal(w: seq<int>, k: int, rows: seq<seq<int>>)
    requires NonNegative(w) && 1 <= k < |w|
    requires |rows| > 0 && MaxRowSum(rows) == Table(w, |w| - 1, k - 1)
    ensures IsOptimal(w, k, rows)
  {
    forall p | IsPartition(w, k, p) ensures MaxRowSum(rows) <= MaxRowSum(p) {
      assert w[..|w|] == w;
      LowerBound(w, |w| - 1, k - 1, p);
    }
  }
  // ---------------------------------------------------------------------
  // Reconstruction: the rows rebuilt so far never exceed the optimum
  // ---------------------------------------------------------------------

  /** The largest row sum the reconstruction will end with, given what is still to be split. */
  function Bound(w: seq<int>, nn: int, j: int, rows: seq<seq<int>>): int
    requires 0 <= nn < |w| && j >= 0
  {
    if |rows| == 0 then Table(w, nn, j) else Max(Table(w, nn, j), MaxRowSum(rows))
  }

  /** Before any row is rebuilt, the bound is the table cell itself. */
  lemma BoundOfNoRows(w: seq<int>, nn: int, j: int)
    requires 0 <= nn < |w| && j >= 0
    ensures Bound(w, nn, j, []) == Table(w, nn, j)
  {
  }

  lemma {:induction false} FlattenPrepend(r: seq<int>, rows: seq<seq<int>>)
    ensures Flatten([r] + rows) == r + Flatten(rows)
    decreases |rows|
  {
    if |rows| == 0 {
      assert [r] + rows == [r];
      assert [r][..0] == [];
    } else {
      var front := rows[..|rows| - 1];
      assert ([r] + rows)[..|rows|] == [r] + front;
      FlattenPrepend(r, front);
    }
  }

  lemma {:induction false} MaxRowSumPrepend(r: seq<int>, rows: seq<seq<int>>)
    requires |rows| > 0
    ensures MaxRowSum([r] + rows) == Max(Sum(r), MaxRowSum(rows))
    decreases |rows|
  {
    if |rows| == 1 {
      assert ([r] + rows)[..1] == [r];
    } else {
      var front := rows[..|rows| - 1];
      assert ([r] + rows)[..|rows|] == [r] + front;
      MaxRowSumPrepend(r, front);
    }
  }

  lemma {:induction false} SumSplit(a: seq<int>, b: seq<int>)
    ensures Sum(a + b) == Sum(a) + Sum(b)
    decreases |b|
  {
    if |b| == 0 {
      assert a + b == a;
    } else {
      assert (a + b)[..|a + b| - 1] == a + b[..|b| - 1];
      SumSplit(a, b[..|b| - 1]);
    }
  }

  /** The weights x+1..i sum to the difference of two prefix sums. */
  lemma RowSum(w: seq<int>, x: int, i: int)
    requires 0 <= x < i < |w|
    ensures Sum(w[x + 1..i + 1]) == PrefixSum(w, i) - PrefixSum(w, x)
  {
    assert w[..i + 1] == w[..x + 1] + w[x + 1..i + 1];
    SumSplit(w[..x + 1], w[x + 1..i + 1]);
  }

  lemma TableAtLeastFirst(w: seq<int>, j: int)
    requires |w| >= 1 && j >= 0
    ensures Table(w, 0, j) == w[0]
  {
    PrefixSumFirst(w);
  }

  lemma PrefixSumFirst(w: seq<int>)
    requires |w| >= 1
    ensures PrefixSum(w, 0) == w[0]
  {
    assert w[..1][..0] == [];
    assert Sum(w[..1]) == Sum(w[..1][..0]) + w[0];
  }

  lemma EmptyRowKeepsBound(w: seq<int>, kk: int, rows: seq<seq<int>>)
    requires |w| >= 1 && kk >= 0 && NonNegative(w)
    ensures Bound(w, 0, kk, [[]] + rows) == Bound(w, 0, kk + 1, rows)
  {
    TableAtLeastFirst(w, kk);
    TableAtLeastFirst(w, kk + 1);
    if |rows| > 0 {
      MaxRowSumPrepend([], rows);
    } else {
      assert [[]] + rows == [[]];
    }
  }

  lemma RowKeepsBound(w: seq<int>, nn: int, kk: int, x: int, rows: seq<seq<int>>)
    requires 1 <= nn < |w| && kk >= 0
    requires x == Best(w, nn, kk + 1, nn).x
    ensures 0 <= x < nn
    ensures Bound(w, x, kk, [w[x + 1..nn + 1]] + rows) == Bound(w, nn, kk + 1, rows)
  {
    RowSum(w, x, nn);
    if |rows| > 0 {
      MaxRowSumPrepend(w[x + 1..nn + 1], rows);
    } else {
      assert [w[x + 1..nn + 1]] + rows == [w[x + 1..nn + 1]];
    }
  }

  // ---------------------------------------------------------------------
  // Optimality: no partition beats the table, for non-negative weights
  // ---------------------------------------------------------------------

  lemma {:induction false} PrefixSumMonotone(w: seq<int>, x: int, y: int)
    requires NonNegative(w) && 0 <= x <= y < |w|
    ensures PrefixSum(w, x) <= PrefixSum(w, y)
    decreases y - x
  {
    if x < y {
      PrefixSumStep(w, y);
      PrefixSumMonotone(w, x, y - 1);
    }
  }

  /** Every cell is at least the last weight it covers. */
  lemma TableCoversLast(w: seq<int>, i: int, j: int)
    requires NonNegative(w) && 0 <= i < |w| && j >= 0
    ensures Table(w, i, j) >= w[i]
  {
    if j == 0 {
      TableAtLeastFirst(w, 0);
      if i > 0 {
        PrefixSumStep(w, i);
        PrefixSumMonotone(w, 0, i - 1);
      } else {
        TableAtLeastFirst(w, 0);
      }
    } else if i > 0 {
      var b := Best(w, i, j, i);
      PrefixSumStep(w, i);
      PrefixSumMonotone(w, b.x, i - 1);
    }
  }

  /** Covering one more weight never lowers a cell. */
  lemma {:induction false} TableMonotoneInWeights(w: seq<int>, i: int, j: int)
    requires NonNegative(w) && 1 <= i < |w| && j >= 0
    ensures Table(w, i - 1, j) <= Table(w, i, j)
    decreases i, 0
  {
    if j == 0 {
      PrefixSumStep(w, i);
    } else if i == 1 {
      SecondCellCoversFirst(w, j);
    } else if Best(w, i, j, i).x < i - 1 {
      EarlierSplitGrows(w, i, j);
    } else {
      LastSplitCost(w, i, j);
      TableMonotoneInRows(w, i - 1, j);
    }
  }

  lemma SecondCellCoversFirst(w: seq<int>, j: int)
    requires NonNegative(w) && 2 <= |w| && j >= 1
    ensures Table(w, 0, j) <= Table(w, 1, j)
  {
    TableAtLeastFirst(w, j - 1);
    TableAtLeastFirst(w, j);
    assert Table(w, 1, j) == Cost(w, 1, j, 0);
  }

  /** When the best split of cell (i, j) is not the last one, cell (i-1, j) can split there too, for less. */
  lemma EarlierSplitGrows(w: seq<int>, i: int, j: int)
    requires NonNegative(w) && 2 <= i < |w| && j >= 1
    requires Best(w, i, j, i).x < i - 1
    ensures Table(w, i - 1, j) <= Table(w, i, j)
  {
    var x := Best(w, i, j, i).x;
    var c := Best(w, i - 1, j, i - 1);
    assert Table(w, i - 1, j) == c.cost <= Cost(w, i - 1, j, x);
    PrefixSumStep(w, i);
    assert Cost(w, i - 1, j, x) <= Cost(w, i, j, x);
  }

  /** When the best split of cell (i, j) is the last one, the cell covers cell (i-1, j-1). */
  lemma LastSplitCost(w: seq<int>, i: int, j: int)
    requires 2 <= i < |w| && j >= 1
    requires Best(w, i, j, i).x == i - 1
    ensures Table(w, i - 1, j - 1) <= Table(w, i, j)
  {
    assert Table(w, i, j) == Cost(w, i, j, i - 1);
  }

  /** Allowing one more row never raises a cell. */
  lemma {:induction false} TableMonotoneInRows(w: seq<int>, i: int, j: int)
    requires NonNegative(w) && 0 <= i < |w| && j >= 1
    ensures Table(w, i, j) <= Table(w, i, j - 1)
    decreases i, 1
  {
    if i == 0 {
      TableAtLeastFirst(w, j);
      TableAtLeastFirst(w, j - 1);
    } else {
      LastRowAlone(w, i, j);
      TableMonotoneInWeights(w, i, j - 1);
      TableCoversLast(w, i, j - 1);
      MaxAtMost(Table(w, i - 1, j - 1), w[i], Table(w, i, j - 1));
    }
  }

  /** A cell costs at most its split that leaves the last weight alone in the last row. */
  lemma LastRowAlone(w: seq<int>, i: int, j: int)
    requires 1 <= i < |w| && j >= 1
    ensures Table(w, i, j) <= Max(Table(w, i - 1, j - 1), w[i])
  {
    var b := Best(w, i, j, i);
    assert Table(w, i, j) == b.cost <= Cost(w, i, j, i - 1);
    PrefixSumStep(w, i);
  }

  lemma MaxAtMost(a: int, b: int, c: int)
    requires a <= c && b <= c
    ensures Max(a, b) <= c
  {
  }

  lemma {:induction false} TableAtMostWhole(w: seq<int>, i: int, j: int)
    requires NonNegative(w) && 0 <= i < |w| && j >= 0
    ensures Table(w, i, j) <= PrefixSum(w, i)
    decreases j
  {
    if j > 0 {
      TableMonotoneInRows(w, i, j);
      TableAtMostWhole(w, i, j - 1);
    }
  }

  /**
   * Any split of the first i+1 weights into j+1 contiguous rows has a
   * largest row sum of at least cell (i, j).
   */
  lemma {:induction false} LowerBound(w: seq<int>, i: int, j: int, p: seq<seq<int>>)
    requires NonNegative(w) && 0 <= i < |w| && j >= 0
    requires IsPartition(w[..i + 1], j + 1, p)
    ensures MaxRowSum(p) >= Table(w, i, j)
    decreases j
  {
    var q := p[..j];
    var last := p[j];
    assert Flatten(p) == Flatten(q) + last;
    var len := |last|;
    assert Flatten(q) == w[..i + 1 - len];
    assert last == w[i + 1 - len..i + 1];
    if j == 0 {
      assert Flatten(q) == [];
    } else {
      assert MaxRowSum(p) == Max(MaxRowSum(q), Sum(last));
      if len == 0 {
        assert w[..i + 1 - len] == w[..i + 1];
        LowerBound(w, i, j - 1, q);
        TableMonotoneInRows(w, i, j);
      } else if len == i + 1 {
        assert last == w[..i + 1];
        TableAtMostWhole(w, i, j);
      } else {
        var x := i - len;
        assert w[..i + 1 - len] == w[..x + 1];
        LowerBound(w, x, j - 1, q);
        RowSum(w, x, i);
        var b := Best(w, i, j, i);
        assert b.cost <= Cost(w, i, j, x);
      }
    }
  }
}
