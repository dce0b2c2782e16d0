/** Repeating rows: which row of the batch each row of the result is, for tensor columns and for array
    columns. */
module RowMaps {
  import opened Arithmetic
  import opened Sequences
  import opened DataProto

  function Copies<T>(x: T, n: nat): (r: seq<T>)
    ensures |r| == n
  {
    seq(n, _ => x)
  }

  /** `tensor.repeat_interleave` with one count per row. */
  function RepeatInterleave<T>(col: seq<T>, times: seq<nat>): seq<T>
    requires |col| == |times|
  {
    if col == [] then []
    else
      var m := |col| - 1;
      RepeatInterleave(col[..m], times[..m]) + Copies(col[m], times[m])
  }

  /** `np.repeat` with one count for all rows. */
  function Repeat<T>(col: seq<T>, n: nat): seq<T> {
    seq(|col| * n, k requires 0 <= k < |col| * n => col[QuotientBelow(k, |col|, n)])
  }

  /** `np.repeat` with one count per row: by the prefix sums of the counts. */
  function RepeatBy<T>(col: seq<T>, times: seq<nat>): seq<T>
    requires |col| == |times|
  {
    seq(Sum(times), k requires 0 <= k < Sum(times) => col[RowOf(times, k)])
  }

  /** `expand` to n copies and `reshape`. */
  function Expand<T>(col: seq<T>, n: nat): seq<T> {
    if n == 0 then [] else Expand(col, n - 1) + col
  }

  /** `np.tile`. */
  function Tile<T>(col: seq<T>, n: nat): seq<T> {
    seq(|col| * n, k requires 0 <= k < |col| * n => col[RemainderOf(k, |col|, n)])
  }

  function QuotientBelow(k: nat, m: nat, n: nat): (i: nat)
    requires k < m * n
    ensures i < m && n > 0 && i == k / n
  {
    BothPositive(k, m, n);
    DivAtLeast(k, n, m);
    k / n
  }

  function RemainderOf(k: nat, m: nat, n: nat): (i: nat)
    requires k < m * n
    ensures i < m && i == k % m
  {
    BothPositive(k, m, n);
    k % m
  }

  lemma BothPositive(k: nat, m: nat, n: nat)
    requires k < m * n
    ensures m > 0 && n > 0
  {
  }

  /** The row whose copies include the k-th of all. */
  function RowOf(times: seq<nat>, k: nat): (i: nat)
    requires k < Sum(times)
    ensures i < |times| && Sum(times[..i]) <= k < Sum(times[..i + 1])
  {
    var m := |times| - 1;
    if k >= Sum(times[..m]) then
      assert times[..m + 1] == times;
      m
    else
      var i := RowOf(times[..m], k);
      assert times[..m][..i] == times[..i] && times[..m][..i + 1] == times[..i + 1];
      i
  }

  // ----- the row maps

  /** Row k of the result is row k / n. */
  function EachRow(size: nat, n: nat): (r: seq<nat>)
    ensures InRange(r, size)
  {
    seq(size * n, k requires 0 <= k < size * n => QuotientBelow(k, size, n))
  }

  /** Row k of the result is row k mod size. */
  function AllRows(size: nat, n: nat): (r: seq<nat>)
    ensures InRange(r, size)
  {
    seq(size * n, k requires 0 <= k < size * n => RemainderOf(k, size, n))
  }

  /** Row k of the result is the row whose prefix sums enclose k. */
  function RowsBy(times: seq<nat>): (r: seq<nat>)
    ensures InRange(r, |times|)
  {
    seq(Sum(times), k requires 0 <= k < Sum(times) => RowOf(times, k))
  }

  lemma {:induction false} PrefixTotals(times: seq<nat>, i: nat, j: nat)
    requires i <= j <= |times|
    ensures Sum(times[..i]) <= Sum(times[..j])
    decreases j
  {
    if i < j {
      PrefixTotals(times, i, j - 1);
      assert times[..j][..j - 1] == times[..j - 1];
    }
  }

  lemma RowOfUnique(times: seq<nat>, k: nat, i: nat)
    requires k < Sum(times) && i < |times| && Sum(times[..i]) <= k < Sum(times[..i + 1])
    ensures RowOf(times, k) == i
  {
    var j := RowOf(times, k);
    if i < j {
      PrefixTotals(times, i + 1, j);
    } else if j < i {
      PrefixTotals(times, j + 1, i);
    }
  }

  /** Tensor rows repeated one by one are those that the prefix sums choose. */
  lemma {:induction false} RepeatInterleaveIs<T>(col: seq<T>, times: seq<nat>)
    requires |col| == |times|
    ensures RepeatInterleave(col, times) == Pick(col, RowsBy(times))
  {
    if col != [] {
      var m := |col| - 1;
      var before := Sum(times[..m]);
      RepeatInterleaveIs(col[..m], times[..m]);
      assert times[..m + 1] == times;
      forall k | 0 <= k < Sum(times) ensures RepeatInterleave(col, times)[k] == col[RowOf(times, k)] {
        if k >= before {
          RowOfUnique(times, k, m);
        }
      }
    }
  }

  lemma RepeatByIs<T>(col: seq<T>, times: seq<nat>)
    requires |col| == |times|
    ensures RepeatBy(col, times) == Pick(col, RowsBy(times))
  {
  }

  lemma PrefixOfCopies(size: nat, n: nat, i: nat)
    requires i <= size
    ensures Sum(Copies(n, size)[..i]) == i * n
  {
    SumOfEqual(Copies(n, size)[..i], n);
  }

  lemma QuotientBounds(k: nat, n: nat, i: nat)
    requires n > 0 && i == k / n
    ensures i * n <= k < (i + 1) * n
  {
    assert k == i * n + k % n && (i + 1) * n == i * n + n;
  }

  lemma RowOfCopies(size: nat, n: nat, k: nat, i: nat)
    requires k < size * n && i == QuotientBelow(k, size, n)
    ensures k < Sum(Copies(n, size)) && RowOf(Copies(n, size), k) == i
  {
    SumOfEqual(Copies(n, size), n);
    QuotientBounds(k, n, i);
    PrefixOfCopies(size, n, i);
    PrefixOfCopies(size, n, i + 1);
    RowOfUnique(Copies(n, size), k, i);
  }

  /** One count for all rows: row k / n. */
  lemma RowsByConstant(size: nat, n: nat)
    ensures RowsBy(Copies(n, size)) == EachRow(size, n)
  {
    SumOfEqual(Copies(n, size), n);
    forall k | 0 <= k < size * n ensures RowsBy(Copies(n, size))[k] == EachRow(size, n)[k] {
      RowOfCopies(size, n, k, QuotientBelow(k, size, n));
    }
  }

  lemma RepeatIs<T>(col: seq<T>, n: nat)
    ensures Repeat(col, n) == Pick(col, EachRow(|col|, n))
  {
  }

  lemma TileIs<T>(col: seq<T>, n: nat)
    ensures Tile(col, n) == Pick(col, AllRows(|col|, n))
  {
  }

  lemma {:induction false} ExpandIs<T>(col: seq<T>, n: nat)
    ensures Expand(col, n) == Pick(col, AllRows(|col|, n))
  {
    if n > 0 {
      var m := |col|;
      ExpandIs(col, n - 1);
      assert m * n == m * (n - 1) + m;
      forall k | 0 <= k < m * n ensures Expand(col, n)[k] == col[RemainderOf(k, m, n)] {
        if k >= m * (n - 1) {
          DivUnique(k, m, n - 1, k - m * (n - 1)) by { assert (n - 1) * m == m * (n - 1); }
        } else {
          assert Expand(col, n - 1)[k] == col[RemainderOf(k, m, n - 1)];
        }
      }
    }
  }

  // ----- DataProto.repeat and DataProto.sample_level_repeat

  function RepeatTensors<T>(cols: Columns<T>, n: nat, interleave: bool): Columns<T> {
    map key | key in cols ::
      if interleave then RepeatInterleave(cols[key], Copies(n, |cols[key]|)) else Expand(cols[key], n)
  }

  function RepeatArrays<T>(cols: Columns<T>, n: nat, interleave: bool): Columns<T> {
    map key | key in cols :: if interleave then Repeat(cols[key], n) else Tile(cols[key], n)
  }

  function RepeatBatch<T>(d: Batch<T>, n: nat, interleave: bool): Batch<T> {
    Batch(d.size * n, d.hasTensors, RepeatTensors(d.tensors, n, interleave), RepeatArrays(d.arrays, n, interleave))
  }

  /** The rows that a repeat takes. */
  function RepeatedRows(size: nat, n: nat, interleave: bool): (r: seq<nat>)
    ensures InRange(r, size)
  {
    if interleave then EachRow(size, n) else AllRows(size, n)
  }

  lemma RepeatTensorsIs<T>(cols: Columns<T>, size: nat, n: nat, interleave: bool)
    requires Even(cols, size)
    ensures RepeatTensors(cols, n, interleave) == PickAll(cols, size, RepeatedRows(size, n, interleave))
  {
    RowsByConstant(size, n);
    forall key | key in cols
      ensures RepeatTensors(cols, n, interleave)[key] == Pick(cols[key], RepeatedRows(size, n, interleave)) {
      if interleave {
        RepeatInterleaveIs(cols[key], Copies(n, size));
      } else {
        ExpandIs(cols[key], n);
      }
    }
  }

  lemma RepeatArraysIs<T>(cols: Columns<T>, size: nat, n: nat, interleave: bool)
    requires Even(cols, size)
    ensures RepeatArrays(cols, n, interleave) == PickAll(cols, size, RepeatedRows(size, n, interleave))
  {
    forall key | key in cols
      ensures RepeatArrays(cols, n, interleave)[key] == Pick(cols[key], RepeatedRows(size, n, interleave)) {
      RepeatIs(cols[key], n);
      TileIs(cols[key], n);
    }
  }

  /** Row k of r is row k / n of d when interleaved, and otherwise row k mod len, in every column. */
  ghost predicate RowRepeated<T>(d: Batch<T>, r: Batch<T>, n: nat, interleave: bool, k: nat)
    requires Valid(d) && k < d.size * n
  {
    BothPositive(k, d.size, n);
    var row := if interleave then k / n else k % d.size;
    && r.tensors.Keys == d.tensors.Keys && r.arrays.Keys == d.arrays.Keys && row < d.size
    && (forall key | key in d.tensors :: k < |r.tensors[key]| && r.tensors[key][k] == d.tensors[key][row])
    && (forall key | key in d.arrays :: k < |r.arrays[key]| && r.arrays[key][k] == d.arrays[key][row])
  }

  /** Interleaved repeat takes row k / n, tiled repeat row k mod len, in every column. */
  lemma RepeatIsGather<T>(d: Batch<T>, n: nat, interleave: bool)
    requires Valid(d)
    ensures RepeatBatch(d, n, interleave) == Gather(d, if interleave then EachRow(d.size, n) else AllRows(d.size, n))
    ensures RepeatBatch(d, n, interleave).size == d.size * n
    ensures forall k | 0 <= k < d.size * n :: RowRepeated(d, RepeatBatch(d, n, interleave), n, interleave, k)
  {
    RepeatTensorsIs(d.tensors, d.size, n, interleave);
    RepeatArraysIs(d.arrays, d.size, n, interleave);
    forall k | 0 <= k < d.size * n ensures RowRepeated(d, RepeatBatch(d, n, interleave), n, interleave, k) {
      RepeatedRowAt(d, n, interleave, k);
    }
  }

  lemma RepeatedRowAt<T>(d: Batch<T>, n: nat, interleave: bool, k: nat)
    requires Valid(d) && k < d.size * n
    ensures RowRepeated(d, Gather(d, RepeatedRows(d.size, n, interleave)), n, interleave, k)
  {
    var row := if interleave then QuotientBelow(k, d.size, n) else RemainderOf(k, d.size, n);
    assert RepeatedRows(d.size, n, interleave)[k] == row;
  }

  /** One count per row of the batch. */
  function SampleLevelRepeat<T>(d: Batch<T>, times: seq<nat>): Batch<T>
    requires Valid(d) && |times| == d.size
  {
    Batch(Sum(times), d.hasTensors, SampleTensors(d.tensors, times), SampleArrays(d.arrays, times))
  }

  function SampleTensors<T>(cols: Columns<T>, times: seq<nat>): Columns<T>
    requires Even(cols, |times|)
  {
    map key | key in cols :: RepeatInterleave(cols[key], times)
  }

  function SampleArrays<T>(cols: Columns<T>, times: seq<nat>): Columns<T>
    requires Even(cols, |times|)
  {
    map key | key in cols :: RepeatBy(cols[key], times)
  }

  /** Repeating by counts takes the row whose prefix sums enclose k, in every column. */
  lemma SampleLevelRepeatIsGather<T>(d: Batch<T>, times: seq<nat>)
    requires Valid(d) && |times| == d.size
    ensures SampleLevelRepeat(d, times) == Gather(d, RowsBy(times))
  {
    forall key | key in d.tensors ensures SampleTensors(d.tensors, times)[key] == Pick(d.tensors[key], RowsBy(times)) {
      RepeatInterleaveIs(d.tensors[key], times);
    }
    forall key | key in d.arrays ensures SampleArrays(d.arrays, times)[key] == Pick(d.arrays[key], RowsBy(times)) {
      RepeatByIs(d.arrays[key], times);
    }
  }
}
