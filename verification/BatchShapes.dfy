/** Folding the batch dimension and back, and unfolding columns into rows. */
module BatchShapes {
  import opened Wrappers
  import opened Arithmetic
  import opened Sequences
  import opened DataProto
  import opened RowMaps

  /** Row-major cells in m rows of w. */
  function Reshape<T>(cells: seq<T>, m: nat, w: nat): (r: seq<seq<T>>)
    requires |cells| == m * w
    ensures |r| == m && Sized(r, w)
    decreases m
  {
    if m == 0 then []
    else
      assert m * w == w + (m - 1) * w;
      [cells[..w]] + Reshape(cells[w..], m - 1, w)
  }

  lemma {:induction false} ReshapeAt<T>(cells: seq<T>, m: nat, w: nat, i: nat)
    requires |cells| == m * w && i < m
    ensures i * w + w <= |cells| && Reshape(cells, m, w)[i] == cells[i * w..i * w + w]
    decreases m
  {
    RangeFits(m, w, i);
    assert m * w == w + (m - 1) * w;
    if i > 0 {
      ReshapeAt(cells[w..], m - 1, w, i - 1);
      DropSlice(cells, w, (i - 1) * w, w);
      assert i * w == w + (i - 1) * w;
    }
  }

  lemma {:induction false} JoinReshape<T>(cells: seq<T>, m: nat, w: nat)
    requires |cells| == m * w
    ensures Join(Reshape(cells, m, w)) == cells
    decreases m
  {
    if m > 0 {
      assert m * w == w + (m - 1) * w;
      JoinReshape(cells[w..], m - 1, w);
    }
  }

  lemma {:induction false} ReshapeJoin<T>(rows: seq<seq<T>>, w: nat)
    requires Sized(rows, w)
    ensures |Join(rows)| == |rows| * w && Reshape(Join(rows), |rows|, w) == rows
  {
    JoinLength(rows, w);
    if rows != [] {
      ReshapeJoin(rows[1..], w);
      assert Join(rows)[..w] == rows[0] && Join(rows)[w..] == Join(rows[1..]);
    }
  }

  // ----- fold_batch_dim and unfold_batch_dim

  function ReshapeAll<T>(cols: Columns<T>, m: nat, w: nat): Columns<seq<T>>
    requires Even(cols, m * w)
  {
    map key | key in cols :: Reshape(cols[key], m, w)
  }

  /** `fold_batch_dim`: m rows of size / m; None for a batch without tensors, and for the failed assert. */
  function Fold<T>(d: Batch<T>, m: nat): Option<Batch<seq<T>>>
    requires Valid(d)
  {
    if !d.hasTensors || m == 0 || d.size % m != 0 then None
    else
      assert d.size == m * (d.size / m);
      Some(FoldBy(d, m, d.size / m))
  }

  function FoldBy<T>(d: Batch<T>, m: nat, w: nat): Batch<seq<T>>
    requires Valid(d) && d.size == m * w
  {
    Batch(m, true, ReshapeAll(d.tensors, m, w), ReshapeAll(d.arrays, m, w))
  }

  /** The second batch dimension is w in every column. */
  predicate Folded<T>(d: Batch<seq<T>>, w: nat) {
    && Valid(d) && d.hasTensors
    && (forall key | key in d.tensors :: Sized(d.tensors[key], w))
    && forall key | key in d.arrays :: Sized(d.arrays[key], w)
  }

  function JoinAll<T>(cols: Columns<seq<T>>): Columns<T> {
    map key | key in cols :: Join(cols[key])
  }

  /** `unfold_batch_dim` of the first two dimensions. */
  function Unfold<T>(d: Batch<seq<T>>, w: nat): Batch<T>
    requires Folded(d, w)
  {
    Batch(d.size * w, true, JoinAll(d.tensors), JoinAll(d.arrays))
  }

  lemma JoinReshapeAll<T>(cols: Columns<T>, m: nat, w: nat)
    requires Even(cols, m * w)
    ensures JoinAll(ReshapeAll(cols, m, w)) == cols
  {
    forall key | key in cols ensures Join(Reshape(cols[key], m, w)) == cols[key] {
      JoinReshape(cols[key], m, w);
    }
  }

  /** Folding then unfolding is the identity. */
  lemma FoldUnfold<T>(d: Batch<T>, m: nat)
    requires Valid(d)
    ensures Fold(d, m).Some? <==> d.hasTensors && m > 0 && d.size % m == 0
    ensures Fold(d, m).Some? ==> Folded(Fold(d, m).value, d.size / m) && Unfold(Fold(d, m).value, d.size / m) == d
  {
    if d.hasTensors && m > 0 && d.size % m == 0 {
      assert d.size == m * (d.size / m);
      UnfoldFoldBy(d, m, d.size / m);
    }
  }

  lemma UnfoldFoldBy<T>(d: Batch<T>, m: nat, w: nat)
    requires Valid(d) && d.hasTensors && d.size == m * w
    ensures Folded(FoldBy(d, m, w), w) && Unfold(FoldBy(d, m, w), w) == d
  {
    JoinReshapeAll(d.tensors, m, w);
    JoinReshapeAll(d.arrays, m, w);
  }

  /** Unfolding then folding is the identity. */
  lemma UnfoldFold<T>(d: Batch<seq<T>>, w: nat)
    requires Folded(d, w) && d.size > 0
    ensures Valid(Unfold(d, w)) && Fold(Unfold(d, w), d.size) == Some(d)
  {
    var size := d.size * w;
    DivExact(w, d.size);
    ReshapeJoinAll(d.tensors, d.size, w, size);
    ReshapeJoinAll(d.arrays, d.size, w, size);
  }

  lemma ReshapeJoinAll<T>(cols: Columns<seq<T>>, m: nat, w: nat, size: nat)
    requires size == m * w && forall key | key in cols :: |cols[key]| == m && Sized(cols[key], w)
    ensures Even(JoinAll(cols), size) && ReshapeAll(JoinAll(cols), m, w) == cols
  {
    forall key | key in cols
      ensures |JoinAll(cols)[key]| == size && Reshape(Join(cols[key]), m, w) == cols[key] {
      ReshapeJoin(cols[key], w);
    }
  }

  // ----- unfold_column_chunks

  /** `reshape` of a column of rows to n times the rows and an n-th of the width; None where the number
      of cells does not fit. */
  function SplitColumn<T>(col: seq<seq<T>>, n: nat): Option<seq<seq<T>>> {
    if n == 0 then None
    else if col == [] then Some([])
    else TryReshape(Join(col), |col| * n, |col[0]| / n)
  }

  function TryReshape<T>(cells: seq<T>, m: nat, w: nat): Option<seq<seq<T>>> {
    if |cells| != m * w then None else Some(Reshape(cells, m, w))
  }

  /** All rows of a tensor or an array are of one width. */
  predicate Rectangular<T>(col: seq<seq<T>>) {
    col != [] ==> Sized(col, |col[0]|)
  }

  /** The split of a column succeeds exactly when n divides its width; it keeps every cell, in order. */
  lemma SplitColumnIff<T>(col: seq<seq<T>>, n: nat)
    requires Rectangular(col)
    ensures SplitColumn(col, n).Some? <==> n > 0 && (col != [] ==> |col[0]| % n == 0)
    ensures SplitColumn(col, n).Some? ==>
              Join(SplitColumn(col, n).value) == Join(col) && |SplitColumn(col, n).value| == |col| * n
  {
    if n > 0 && col != [] {
      var cells, m, w := Join(col), |col| * n, |col[0]| / n;
      assert |cells| == m * w <==> |col[0]| % n == 0 by {
        JoinLength(col, |col[0]|);
        CellsFit(|col|, n, |col[0]|);
      }
      SplitIsReshape(col, n, cells, m, w);
      ReshapeKeeps(cells, m, w);
    }
  }

  lemma ReshapeKeeps<T>(cells: seq<T>, m: nat, w: nat)
    ensures TryReshape(cells, m, w).Some? <==> |cells| == m * w
    ensures TryReshape(cells, m, w).Some? ==>
              Join(TryReshape(cells, m, w).value) == cells && |TryReshape(cells, m, w).value| == m
  {
    if |cells| == m * w {
      JoinReshape(cells, m, w);
    }
  }

  lemma SplitIsReshape<T>(col: seq<seq<T>>, n: nat, cells: seq<T>, m: nat, w: nat)
    requires n > 0 && col != [] && cells == Join(col) && m == |col| * n && w == |col[0]| / n
    ensures SplitColumn(col, n) == TryReshape(cells, m, w)
  {
  }

  lemma CellsFit(m: nat, n: nat, c: nat)
    requires m > 0 && n > 0
    ensures m * c == m * n * (c / n) <==> c % n == 0
  {
    SameProduct(m, n, c / n, c);
    assert c == n * (c / n) + c % n;
  }

  lemma SameProduct(m: nat, n: nat, w: nat, c: nat)
    requires m > 0
    ensures m * c == m * n * w <==> c == n * w
  {
    assert m * n * w == m * (n * w);
    if c < n * w {
      MulMono(c + 1, n * w, m);
      assert (c + 1) * m == m * c + m;
    } else if c > n * w {
      MulMono(n * w + 1, c, m);
      assert (n * w + 1) * m == m * (n * w) + m;
    }
  }

  /** Row i * n + j of a column of width n * w, split n-fold, is the j-th part of row i. */
  lemma SplitColumnAt<T>(col: seq<seq<T>>, n: nat, c: nat, w: nat, i: nat, j: nat, row: nat, start: nat)
    requires c == n * w && Sized(col, c) && i < |col| && j < n
    requires row == i * n + j && start == j * w
    ensures SplitColumn(col, n).Some? && row < |SplitColumn(col, n).value| && start + w <= |col[i]|
    ensures SplitColumn(col, n).value[row] == col[i][start..start + w]
  {
    var m, from, at := Located(|col|, n, c, w, i, j, row, start);
    PartOfRow(col, c, w, i, from, start);
    RowOfSplit(col, n, c, w, m, row, at);
  }

  /** The place of a part: among the m new rows, and among all cells. */
  lemma Located(rows: nat, n: nat, c: nat, w: nat, i: nat, j: nat, row: nat, start: nat)
    returns (m: nat, from: nat, at: nat)
    requires c == n * w && i < rows && j < n && row == i * n + j && start == j * w
    ensures m == rows * n && row < m && from == i * c && start + w <= c
    ensures at == from + start == row * w
  {
    m, from := rows * n, i * c;
    at := from + start;
    RangeFits(rows, n, i);
    RangeFits(n, w, j);
    Offsets(n, w, i, j);
  }

  lemma RowOfSplit<T>(col: seq<seq<T>>, n: nat, c: nat, w: nat, m: nat, row: nat, at: nat)
    requires n > 0 && col != [] && Sized(col, c) && c == n * w && m == |col| * n && row < m && at == row * w
    ensures SplitColumn(col, n).Some? && row < |SplitColumn(col, n).value| && at + w <= |Join(col)|
    ensures SplitColumn(col, n).value[row] == Join(col)[at..at + w]
  {
    SplitWidth(col, n, c, m, w);
    RowOfReshape(Join(col), m, w, row, at);
  }

  lemma SplitWidth<T>(col: seq<seq<T>>, n: nat, c: nat, m: nat, w: nat)
    requires n > 0 && col != [] && Sized(col, c) && c == n * w && m == |col| * n
    ensures |Join(col)| == m * w && SplitColumn(col, n) == Some(Reshape(Join(col), m, w))
  {
    JoinLength(col, c);
    SplitCells(|col|, n, c, m, w);
    SplitIsReshape(col, n, Join(col), m, w);
  }

  lemma SplitCells(rows: nat, n: nat, c: nat, m: nat, w: nat)
    requires n > 0 && c == n * w && m == rows * n
    ensures rows * c == m * w && c / n == w
  {
    assert rows * (n * w) == rows * n * w;
    assert w * n == c;
    DivExact(w, n);
  }

  lemma RowOfReshape<T>(cells: seq<T>, m: nat, w: nat, row: nat, at: nat)
    requires |cells| == m * w && row < m && at == row * w
    ensures at + w <= |cells| && Reshape(cells, m, w)[row] == cells[at..at + w]
  {
    ReshapeAt(cells, m, w, row);
  }

  lemma PartOfRow<T>(col: seq<seq<T>>, c: nat, w: nat, i: nat, start: nat, skip: nat)
    requires Sized(col, c) && i < |col| && start == i * c && skip + w <= c
    ensures start + skip + w <= |Join(col)|
    ensures Join(col)[start + skip..start + skip + w] == col[i][skip..skip + w]
  {
    RowInJoin(col, c, i);
    SubSlice(Join(col), start, c, skip, w);
  }

  lemma Offsets(n: nat, w: nat, i: nat, j: nat)
    ensures (i * n + j) * w == i * (n * w) + j * w
  {
    assert i * n * w == i * (n * w);
    assert (i * n + j) * w == i * n * w + j * w;
  }

  lemma SubSlice<T>(s: seq<T>, at: nat, n: nat, skip: nat, w: nat)
    requires at + n <= |s| && skip + w <= n
    ensures s[at..at + n][skip..skip + w] == s[at + skip..at + skip + w]
  {
    var part, whole := s[at..at + n][skip..skip + w], s[at + skip..at + skip + w];
    assert |part| == |whole| && forall i | 0 <= i < w :: part[i] == whole[i];
  }

  lemma {:induction false} RowInJoin<T>(rows: seq<seq<T>>, w: nat, i: nat)
    requires Sized(rows, w) && i < |rows|
    ensures i * w + w <= |Join(rows)| && Join(rows)[i * w..i * w + w] == rows[i]
  {
    JoinLength(rows, w);
    RangeFits(|rows|, w, i);
    if i > 0 {
      RowInJoin(rows[1..], w, i - 1);
      assert i * w == w + (i - 1) * w;
      assert Join(rows)[w..] == Join(rows[1..]);
    }
  }

  predicate IsSplit(keys: Option<set<string>>, key: string) {
    keys.Some? && key in keys.value
  }

  predicate Splittable<T>(cols: Columns<seq<T>>, n: nat, keys: Option<set<string>>) {
    forall key | key in cols && IsSplit(keys, key) :: SplitColumn(cols[key], n).Some?
  }

  function UnfoldTensors<T>(cols: Columns<seq<T>>, n: nat, keys: Option<set<string>>): Columns<seq<T>>
    requires Splittable(cols, n, keys)
  {
    map key | key in cols ::
      if IsSplit(keys, key) then SplitColumn(cols[key], n).value
      else RepeatInterleave(cols[key], Copies(n, |cols[key]|))
  }

  function UnfoldArrays<T>(cols: Columns<seq<T>>, n: nat, keys: Option<set<string>>): Columns<seq<T>>
    requires Splittable(cols, n, keys)
  {
    map key | key in cols :: if IsSplit(keys, key) then SplitColumn(cols[key], n).value else Repeat(cols[key], n)
  }

  /** `unfold_column_chunks`; None for a reshape that does not fit, and for a batch with arrays when no
      keys are given: only the loop over the tensors expects that. */
  function UnfoldColumnChunks<T>(d: Batch<seq<T>>, n: nat, keys: Option<set<string>>): Option<Batch<seq<T>>> {
    if (keys.None? && d.arrays.Keys != {}) || !Splittable(d.tensors, n, keys)
       || !Splittable(d.arrays, n, keys) then None
    else Some(Batch(d.size * n, d.hasTensors, UnfoldTensors(d.tensors, n, keys), UnfoldArrays(d.arrays, n, keys)))
  }

  /** A split column keeps every cell, in order; every other column undergoes the row map k / n. */
  ghost predicate UnfoldedFrom<T>(r: Columns<seq<T>>, cols: Columns<seq<T>>, size: nat, n: nat,
                                  keys: Option<set<string>>)
    requires Even(cols, size)
  {
    && r.Keys == cols.Keys
    && forall key | key in cols ::
         && |r[key]| == size * n
         && if IsSplit(keys, key) then Join(r[key]) == Join(cols[key]) else r[key] == Pick(cols[key], EachRow(size, n))
  }

  ghost predicate WidthsDivide<T>(cols: Columns<seq<T>>, n: nat, keys: Option<set<string>>) {
    forall key | key in cols && IsSplit(keys, key) :: n > 0 && (cols[key] != [] ==> |cols[key][0]| % n == 0)
  }

  lemma SplittableIff<T>(cols: Columns<seq<T>>, n: nat, keys: Option<set<string>>)
    requires forall key | key in cols :: Rectangular(cols[key])
    ensures Splittable(cols, n, keys) <==> WidthsDivide(cols, n, keys)
  {
    forall key | key in cols
      ensures SplitColumn(cols[key], n).Some? <==> n > 0 && (cols[key] != [] ==> |cols[key][0]| % n == 0)
    {
      SplitColumnIff(cols[key], n);
    }
  }

  lemma UnfoldTensorsFrom<T>(cols: Columns<seq<T>>, size: nat, n: nat, keys: Option<set<string>>)
    requires Even(cols, size) && Splittable(cols, n, keys) && forall key | key in cols :: Rectangular(cols[key])
    ensures UnfoldedFrom(UnfoldTensors(cols, n, keys), cols, size, n, keys)
  {
    forall key | key in cols ensures var r := UnfoldTensors(cols, n, keys)[key];
        |r| == size * n && if IsSplit(keys, key) then Join(r) == Join(cols[key])
        else r == Pick(cols[key], EachRow(size, n))
    {
      if IsSplit(keys, key) {
        SplitColumnIff(cols[key], n);
      } else {
        RepeatInterleaveIs(cols[key], Copies(n, size));
        RowsByConstant(size, n);
      }
    }
  }

  lemma UnfoldArraysFrom<T>(cols: Columns<seq<T>>, size: nat, n: nat, keys: Option<set<string>>)
    requires Even(cols, size) && Splittable(cols, n, keys) && forall key | key in cols :: Rectangular(cols[key])
    ensures UnfoldedFrom(UnfoldArrays(cols, n, keys), cols, size, n, keys)
  {
    forall key | key in cols ensures var r := UnfoldArrays(cols, n, keys)[key];
        |r| == size * n && if IsSplit(keys, key) then Join(r) == Join(cols[key])
        else r == Pick(cols[key], EachRow(size, n))
    {
      if IsSplit(keys, key) {
        SplitColumnIff(cols[key], n);
      } else {
        RepeatIs(cols[key], n);
      }
    }
  }

  /** Unfolding succeeds exactly when n divides the width of every split column, and array columns come
      with keys; then no cell of a split column is lost or duplicated. */
  lemma UnfoldColumnChunksKeepsCells<T>(d: Batch<seq<T>>, n: nat, keys: Option<set<string>>)
    requires Valid(d)
    requires forall key | key in d.tensors :: Rectangular(d.tensors[key])
    requires forall key | key in d.arrays :: Rectangular(d.arrays[key])
    ensures var r := UnfoldColumnChunks(d, n, keys);
            && (r.Some? <==> && WidthsDivide(d.tensors, n, keys) && WidthsDivide(d.arrays, n, keys)
                             && (keys.None? ==> d.arrays.Keys == {}))
            && (r.Some? ==> && Valid(r.value) && r.value.size == d.size * n
                            && UnfoldedFrom(r.value.tensors, d.tensors, d.size, n, keys)
                            && UnfoldedFrom(r.value.arrays, d.arrays, d.size, n, keys))
  {
    SplittableIff(d.tensors, n, keys);
    SplittableIff(d.arrays, n, keys);
    if UnfoldColumnChunks(d, n, keys).Some? {
      UnfoldTensorsFrom(d.tensors, d.size, n, keys);
      UnfoldArraysFrom(d.arrays, d.size, n, keys);
    }
  }

  /** One row with one tensor and one array column: without split keys the call raises, although no column is
      to be split; with the empty list of keys it repeats both. */
  lemma MissingKeysRaise()
    ensures var d := Batch(1, true, map["t" := [[1, 2]]], map["a" := [[3, 4]]]);
            && UnfoldColumnChunks(d, 2, None).None?
            && UnfoldColumnChunks(d, 2, Some({})).Some?
  {
    var d := Batch(1, true, map["t" := [[1, 2]]], map["a" := [[3, 4]]]);
    assert "a" in d.arrays.Keys;
  }
}
