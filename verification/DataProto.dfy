/** A batch: tensor columns and array columns of equal length. Every operation on it is a choice of
    rows, made through different library calls for the two kinds of column. */
module DataProto {
  import opened Wrappers
  import opened Arithmetic
  import opened Sequences
  import opened Splitting

  type Columns<T> = map<string, seq<T>>

  /** `size` is the batch size of the tensors, or the length of the arrays where there are no tensors. */
  datatype Batch<T> = Batch(size: nat, hasTensors: bool, tensors: Columns<T>, arrays: Columns<T>)

  predicate Even<T>(cols: Columns<T>, n: nat) {
    forall key | key in cols :: |cols[key]| == n
  }

  predicate Valid<T>(d: Batch<T>) {
    Even(d.tensors, d.size) && Even(d.arrays, d.size) && (!d.hasTensors ==> d.tensors == map[])
  }

  // ----- choosing rows

  predicate InRange(rows: seq<nat>, n: nat) {
    forall i | 0 <= i < |rows| :: rows[i] < n
  }

  function Pick<T>(col: seq<T>, rows: seq<nat>): (r: seq<T>)
    requires InRange(rows, |col|)
    ensures |r| == |rows|
  {
    seq(|rows|, i requires 0 <= i < |rows| => col[rows[i]])
  }

  function PickAll<T>(cols: Columns<T>, n: nat, rows: seq<nat>): (r: Columns<T>)
    requires Even(cols, n) && InRange(rows, n)
    ensures Even(r, |rows|)
  {
    map key | key in cols :: Pick(cols[key], rows)
  }

  /** The batch of these rows of d, in this order: every column undergoes the same row map. */
  function Gather<T>(d: Batch<T>, rows: seq<nat>): (r: Batch<T>)
    requires Valid(d) && InRange(rows, d.size)
    ensures Valid(r)
  {
    Batch(|rows|, d.hasTensors, PickAll(d.tensors, d.size, rows), PickAll(d.arrays, d.size, rows))
  }

  /** n row numbers from lo up. */
  function From(lo: nat, n: nat): (r: seq<nat>)
    ensures |r| == n && InRange(r, lo + n)
  {
    seq(n, i => lo + i)
  }

  lemma PickPick<T>(col: seq<T>, a: seq<nat>, b: seq<nat>)
    requires InRange(a, |col|) && InRange(b, |a|)
    ensures InRange(Pick(a, b), |col|) && Pick(Pick(col, a), b) == Pick(col, Pick(a, b))
  {
  }

  /** Choosing rows of chosen rows is one choice. */
  lemma GatherGather<T>(d: Batch<T>, a: seq<nat>, b: seq<nat>)
    requires Valid(d) && InRange(a, d.size) && InRange(b, |a|)
    ensures InRange(Pick(a, b), d.size) && Gather(Gather(d, a), b) == Gather(d, Pick(a, b))
  {
    PickPick(From(0, d.size), a, b);
    PickAllPick(d.tensors, d.size, a, b);
    PickAllPick(d.arrays, d.size, a, b);
  }

  lemma PickAllPick<T>(cols: Columns<T>, n: nat, a: seq<nat>, b: seq<nat>)
    requires Even(cols, n) && InRange(a, n) && InRange(b, |a|) && InRange(Pick(a, b), n)
    ensures PickAll(PickAll(cols, n, a), |a|, b) == PickAll(cols, n, Pick(a, b))
  {
    forall key | key in cols ensures Pick(Pick(cols[key], a), b) == Pick(cols[key], Pick(a, b)) {
      PickPick(cols[key], a, b);
    }
  }

  lemma GatherAll<T>(d: Batch<T>)
    requires Valid(d)
    ensures Gather(d, From(0, d.size)) == d
  {
    var all := From(0, d.size);
    assert forall key | key in d.tensors :: Pick(d.tensors[key], all) == d.tensors[key];
    assert forall key | key in d.arrays :: Pick(d.arrays[key], all) == d.arrays[key];
  }

  // ----- slicing and concatenation

  function SliceAll<T>(cols: Columns<T>, n: nat, lo: nat, hi: nat): Columns<T>
    requires Even(cols, n) && lo <= hi <= n
  {
    map key | key in cols :: cols[key][lo..hi]
  }

  /** `data[lo:hi]`. */
  function Slice<T>(d: Batch<T>, lo: nat, hi: nat): Batch<T>
    requires Valid(d) && lo <= hi <= d.size
  {
    Batch(hi - lo, d.hasTensors, SliceAll(d.tensors, d.size, lo, hi), SliceAll(d.arrays, d.size, lo, hi))
  }

  lemma SliceIsGather<T>(d: Batch<T>, lo: nat, hi: nat)
    requires Valid(d) && lo <= hi <= d.size
    ensures Slice(d, lo, hi) == Gather(d, From(lo, hi - lo))
  {
    SliceAllIsPick(d.tensors, d.size, lo, hi);
    SliceAllIsPick(d.arrays, d.size, lo, hi);
  }

  lemma SliceAllIsPick<T>(cols: Columns<T>, n: nat, lo: nat, hi: nat)
    requires Even(cols, n) && lo <= hi <= n
    ensures SliceAll(cols, n, lo, hi) == PickAll(cols, n, From(lo, hi - lo))
  {
    forall key | key in cols ensures cols[key][lo..hi] == Pick(cols[key], From(lo, hi - lo)) {
    }
  }

  predicate Alike<T>(d: Batch<T>, e: Batch<T>) {
    d.hasTensors == e.hasTensors && d.tensors.Keys == e.tensors.Keys && d.arrays.Keys == e.arrays.Keys
  }

  function AppendAll<T>(cols: Columns<T>, more: Columns<T>): Columns<T>
    requires cols.Keys == more.Keys
  {
    map key | key in cols :: cols[key] + more[key]
  }

  function Append<T>(d: Batch<T>, e: Batch<T>): (r: Batch<T>)
    requires Valid(d) && Valid(e) && Alike(d, e)
    ensures Valid(r) && Alike(r, d)
  {
    Batch(d.size + e.size, d.hasTensors, AppendAll(d.tensors, e.tensors), AppendAll(d.arrays, e.arrays))
  }

  /** `DataProto.concat`; None for the empty list and for batches with different columns. */
  function Concat<T>(ds: seq<Batch<T>>): (r: Option<Batch<T>>)
    requires forall i | 0 <= i < |ds| :: Valid(ds[i])
    ensures r.Some? ==> Valid(r.value)
  {
    if ds == [] then None
    else if |ds| == 1 then Some(ds[0])
    else
      var rest, last := Concat(ds[..|ds| - 1]), ds[|ds| - 1];
      if rest.Some? && Alike(rest.value, last) then Some(Append(rest.value, last)) else None
  }

  /** Concatenation succeeds exactly for one batch or more, all with the same columns. */
  lemma {:induction false} ConcatIff<T>(ds: seq<Batch<T>>)
    requires AllValid(ds)
    ensures Concat(ds).Some? <==> ds != [] && forall i | 0 <= i < |ds| :: Alike(ds[0], ds[i])
    ensures Concat(ds).Some? ==> Alike(ds[0], Concat(ds).value)
  {
    if |ds| > 1 {
      var n := |ds| - 1;
      ConcatIff(ds[..n]);
      assert forall i | 0 <= i < n :: ds[..n][i] == ds[i];
    }
  }

  /** What one column has in each of the batches. */
  function TensorsOf<T>(ds: seq<Batch<T>>, key: string): seq<seq<T>>
    requires forall i | 0 <= i < |ds| :: key in ds[i].tensors
  {
    seq(|ds|, i requires 0 <= i < |ds| => ds[i].tensors[key])
  }

  function ArraysOf<T>(ds: seq<Batch<T>>, key: string): seq<seq<T>>
    requires forall i | 0 <= i < |ds| :: key in ds[i].arrays
  {
    seq(|ds|, i requires 0 <= i < |ds| => ds[i].arrays[key])
  }

  /** Each column of the concatenation is that column of the batches, one after the other. */
  lemma {:induction false} ConcatTensors<T>(ds: seq<Batch<T>>, key: string)
    requires AllValid(ds) && ds != []
    requires forall i | 0 <= i < |ds| :: Alike(ds[0], ds[i]) && key in ds[i].tensors
    ensures Concat(ds).Some? && key in Concat(ds).value.tensors
    ensures Concat(ds).value.tensors[key] == Join(TensorsOf(ds, key))
  {
    var n := |ds| - 1;
    ConcatIff(ds);
    if n == 0 {
      JoinOne(ds[0].tensors[key]);
      assert TensorsOf(ds, key) == [ds[0].tensors[key]];
    } else {
      assert forall i | 0 <= i < n :: ds[..n][i] == ds[i];
      ConcatIff(ds[..n]);
      ConcatTensors(ds[..n], key);
      TensorsSnoc(ds, n, key);
    }
  }

  lemma TensorsSnoc<T>(ds: seq<Batch<T>>, n: nat, key: string)
    requires n == |ds| - 1 && forall i | 0 <= i < |ds| :: key in ds[i].tensors
    ensures forall i | 0 <= i < n :: key in ds[..n][i].tensors
    ensures Join(TensorsOf(ds, key)) == Join(TensorsOf(ds[..n], key)) + ds[n].tensors[key]
  {
    assert TensorsOf(ds, key) == TensorsOf(ds[..n], key) + [ds[n].tensors[key]];
    JoinSnoc(TensorsOf(ds[..n], key), ds[n].tensors[key]);
  }

  lemma {:induction false} ConcatArrays<T>(ds: seq<Batch<T>>, key: string)
    requires AllValid(ds) && ds != []
    requires forall i | 0 <= i < |ds| :: Alike(ds[0], ds[i]) && key in ds[i].arrays
    ensures Concat(ds).Some? && key in Concat(ds).value.arrays
    ensures Concat(ds).value.arrays[key] == Join(ArraysOf(ds, key))
  {
    var n := |ds| - 1;
    ConcatIff(ds);
    if n == 0 {
      JoinOne(ds[0].arrays[key]);
      assert ArraysOf(ds, key) == [ds[0].arrays[key]];
    } else {
      assert forall i | 0 <= i < n :: ds[..n][i] == ds[i];
      ConcatIff(ds[..n]);
      ConcatArrays(ds[..n], key);
      ArraysSnoc(ds, n, key);
    }
  }

  lemma ArraysSnoc<T>(ds: seq<Batch<T>>, n: nat, key: string)
    requires n == |ds| - 1 && forall i | 0 <= i < |ds| :: key in ds[i].arrays
    ensures forall i | 0 <= i < n :: key in ds[..n][i].arrays
    ensures Join(ArraysOf(ds, key)) == Join(ArraysOf(ds[..n], key)) + ds[n].arrays[key]
  {
    assert ArraysOf(ds, key) == ArraysOf(ds[..n], key) + [ds[n].arrays[key]];
    JoinSnoc(ArraysOf(ds[..n], key), ds[n].arrays[key]);
  }

  lemma AppendPicks<T>(cols: Columns<T>, n: nat, a: seq<nat>, b: seq<nat>)
    requires Even(cols, n) && InRange(a, n) && InRange(b, n)
    ensures AppendAll(PickAll(cols, n, a), PickAll(cols, n, b)) == PickAll(cols, n, a + b)
  {
    forall key | key in cols ensures Pick(cols[key], a) + Pick(cols[key], b) == Pick(cols[key], a + b) {
    }
  }

  lemma AppendGathers<T>(d: Batch<T>, a: seq<nat>, b: seq<nat>)
    requires Valid(d) && InRange(a, d.size) && InRange(b, d.size)
    ensures Alike(Gather(d, a), Gather(d, b)) && InRange(a + b, d.size)
    ensures Append(Gather(d, a), Gather(d, b)) == Gather(d, a + b)
  {
    AppendPicks(d.tensors, d.size, a, b);
    AppendPicks(d.arrays, d.size, a, b);
  }

  predicate AllValid<T>(ds: seq<Batch<T>>) {
    forall i | 0 <= i < |ds| :: Valid(ds[i])
  }

  /** Concatenating the batches gives these rows of d. */
  ghost predicate Joins<T>(d: Batch<T>, ds: seq<Batch<T>>, rows: seq<nat>) {
    Valid(d) && InRange(rows, d.size) && AllValid(ds) && Concat(ds) == Some(Gather(d, rows))
  }

  /** One more batch, all of them rows of d. */
  lemma JoinsNext<T>(d: Batch<T>, ds: seq<Batch<T>>, e: Batch<T>, a: seq<nat>, b: seq<nat>)
    requires Joins(d, ds, a) && InRange(b, d.size) && e == Gather(d, b)
    ensures Joins(d, ds + [e], a + b)
  {
    AppendGathers(d, a, b);
    assert (ds + [e])[..|ds|] == ds;
  }

  // ----- padding

  /** The rows of a batch of n rows, over and over. */
  function Wrap(n: nat, m: nat): (r: seq<nat>)
    requires n > 0
    ensures |r| == m && InRange(r, n)
  {
    seq(m, i requires 0 <= i => i % n)
  }

  /** The padded batch: row i of it is row i mod len. */
  function Padded<T>(d: Batch<T>, divisor: nat): (Batch<T>, nat)
    requires Valid(d) && divisor > 0
  {
    if d.size % divisor == 0 then (d, 0)
    else
      var pad := divisor - d.size % divisor;
      (Gather(d, Wrap(d.size, d.size + pad)), pad)
  }

  lemma WrapFull(n: nat, m: nat, take: nat)
    requires n > 0 && m % n == 0 && take <= n
    ensures Wrap(n, m) + From(0, take) == Wrap(n, m + take)
  {
    var joined, full := Wrap(n, m) + From(0, take), Wrap(n, m + take);
    forall i | 0 <= i < m + take ensures joined[i] == full[i] {
      if i >= m && i < m + n {
        DivUnique(i, n, m / n, i - m);
      }
    }
  }

  lemma ModNext(m: nat, n: nat)
    requires n > 0 && m % n == 0
    ensures (m + n) % n == 0
  {
    DivUnique(m + n, n, m / n + 1, 0);
  }

  lemma PadStep<T>(d: Batch<T>, protos: seq<Batch<T>>, sofar: nat, take: nat)
    requires Valid(d) && 0 < d.size && take <= d.size && sofar % d.size == 0
    requires Joins(d, [d] + protos, Wrap(d.size, sofar))
    ensures Joins(d, [d] + (protos + [Slice(d, 0, take)]), Wrap(d.size, sofar + take))
  {
    SliceIsGather(d, 0, take);
    WrapFull(d.size, sofar, take);
    JoinsNext(d, [d] + protos, Slice(d, 0, take), Wrap(d.size, sofar), From(0, take));
    assert [d] + (protos + [Slice(d, 0, take)]) == ([d] + protos) + [Slice(d, 0, take)];
  }

  lemma PadStart<T>(d: Batch<T>)
    requires Valid(d) && 0 < d.size
    ensures Joins(d, [d] + [], Wrap(d.size, d.size)) && d.size % d.size == 0
  {
    GatherAll(d);
    WrapFull(d.size, 0, d.size);
    ModNext(0, d.size);
    assert Wrap(d.size, 0) + From(0, d.size) == From(0, d.size);
    assert [d] + [] == [d];
  }

  /** Pads with the rows from the first on, as often as it takes. */
  method PadToDivisor<T>(data: Batch<T>, divisor: nat) returns (padded: Batch<T>, padSize: nat)
    requires Valid(data) && divisor > 0
    ensures (padded, padSize) == Padded(data, divisor)
  {
    if data.size % divisor == 0 {
      return data, 0;
    }
    padSize := divisor - data.size % divisor;
    padded := PadBy(data, padSize);
  }

  method PadBy<T>(data: Batch<T>, padSize: nat) returns (padded: Batch<T>)
    requires Valid(data) && data.size > 0
    ensures padded == Gather(data, Wrap(data.size, data.size + padSize))
  {
    var paddingProtos: seq<Batch<T>> := [];
    var remaining := padSize;
    ghost var sofar := data.size;
    PadStart(data);
    while remaining > 0
      invariant 0 <= remaining && sofar + remaining == data.size + padSize
      invariant remaining > 0 ==> sofar % data.size == 0
      invariant Joins(data, [data] + paddingProtos, Wrap(data.size, sofar))
    {
      var take := if remaining < data.size then remaining else data.size;
      PadStep(data, paddingProtos, sofar, take);
      ModNext(sofar, data.size);
      paddingProtos := paddingProtos + [Slice(data, 0, take)];
      remaining := remaining - take;
      sofar := sofar + take;
    }
    padded := Concat([data] + paddingProtos).value;
  }

  /** `data[:-pad_size]`, and the batch itself for no padding. */
  function Unpad<T>(d: Batch<T>, pad: nat): Batch<T>
    requires Valid(d)
  {
    if pad != 0 then Slice(d, 0, if pad <= d.size then d.size - pad else 0) else d
  }

  // ----- chunks

  /** The sizes of the chunks of the tensors. */
  function ChunkSizes(size: nat, n: nat): seq<nat>
    requires n > 0
  {
    var pieces := Chunk(From(0, size), n);
    seq(|pieces|, i requires 0 <= i < |pieces| => |pieces[i]|)
  }

  /** Where the arrays are cut to match: `np.cumsum` of the sizes, without the last. */
  function ChunkIndices(sizes: seq<nat>): seq<nat>
    requires sizes != []
  {
    seq(|sizes| - 1, i requires 0 <= i < |sizes| - 1 => Sum(sizes[..i + 1]))
  }

  /** Piece i of `np.array_split` at the given indices. */
  function Between<T>(col: seq<T>, indices: seq<nat>, i: nat): seq<T>
    requires i <= |indices|
  {
    var lo := if i == 0 then 0 else indices[i - 1];
    var hi := if i == |indices| then |col| else indices[i];
    if lo <= hi <= |col| then col[lo..hi] else []
  }

  /** Chunk i of each column: tensors by `chunk`; arrays at the indices of the tensor chunks, or in n
      sections where there are no tensors. */
  function TensorPart<T>(col: seq<T>, n: nat, i: nat): seq<T>
    requires n > 0
  {
    var pieces := Chunk(col, n);
    if i < |pieces| then pieces[i] else []
  }

  function ArrayPart<T>(hasTensors: bool, size: nat, col: seq<T>, n: nat, i: nat): seq<T>
    requires i < n
  {
    if !hasTensors then Piece(col, n, i)
    else
      var sizes := ChunkSizes(size, n);
      if i < |sizes| then Between(col, ChunkIndices(sizes), i) else []
  }

  function ChunkAt<T>(d: Batch<T>, n: nat, i: nat): Batch<T>
    requires Valid(d) && i < n
  {
    var size := if d.hasTensors then |TensorPart(From(0, d.size), n, i)| else |Piece(From(0, d.size), n, i)|;
    Batch(size, d.hasTensors, TensorParts(d.tensors, n, i), ArrayParts(d.hasTensors, d.size, d.arrays, n, i))
  }

  function TensorParts<T>(cols: Columns<T>, n: nat, i: nat): Columns<T>
    requires n > 0
  {
    map key | key in cols :: TensorPart(cols[key], n, i)
  }

  function ArrayParts<T>(hasTensors: bool, size: nat, cols: Columns<T>, n: nat, i: nat): Columns<T>
    requires i < n
  {
    map key | key in cols :: ArrayPart(hasTensors, size, cols[key], n, i)
  }

  /** `DataProto.chunk` without padding; None for its failed assert. */
  function Chunks<T>(d: Batch<T>, n: nat): Option<seq<Batch<T>>>
    requires Valid(d) && d.size > 0 && n > 0
  {
    if d.size % n != 0 then None
    else Some(seq(n, i requires 0 <= i < n => ChunkAt(d, n, i)))
  }

  lemma TensorPartIs<T>(col: seq<T>, n: nat, k: nat, i: nat)
    requires k > 0 && |col| == n * k && i < n
    ensures i * k + k <= |col| && TensorPart(col, n, i) == col[i * k..i * k + k]
  {
    EqualPieces(col, n, k, i);
  }

  lemma EqualCut(m: nat, n: nat, k: nat, i: nat)
    requires n > 0 && m == k * n
    ensures Cut(m, n, i) == i * k
  {
    DivExact(k, n);
  }

  lemma SectionIs<T>(col: seq<T>, n: nat, k: nat, i: nat)
    requires k > 0 && |col| == n * k && i < n
    ensures i * k + k <= |col| && Piece(col, n, i) == col[i * k..i * k + k]
  {
    var size := n * k;
    EqualCut(size, n, k, i);
    EqualCut(size, n, k, i + 1);
    RangeFits(n, k, i);
    assert (i + 1) * k == i * k + k;
  }

  lemma EqualSizes(n: nat, k: nat)
    requires n > 0 && k > 0
    ensures |ChunkSizes(n * k, n)| == n && forall i | 0 <= i < n :: ChunkSizes(n * k, n)[i] == k
  {
    EqualPieces(From(0, n * k), n, k, 0);
    forall i | 0 <= i < n ensures ChunkSizes(n * k, n)[i] == k {
      EqualPieces(From(0, n * k), n, k, i);
    }
  }

  lemma CutAt(sizes: seq<nat>, k: nat, i: nat)
    requires i < |sizes| - 1 && forall j | 0 <= j < |sizes| :: sizes[j] == k
    ensures ChunkIndices(sizes)[i] == (i + 1) * k
  {
    SumOfEqual(sizes[..i + 1], k);
  }

  lemma BetweenIs<T>(col: seq<T>, indices: seq<nat>, i: nat, lo: nat, hi: nat)
    requires i <= |indices| && lo <= hi <= |col|
    requires lo == (if i == 0 then 0 else indices[i - 1]) && hi == (if i == |indices| then |col| else indices[i])
    ensures Between(col, indices, i) == col[lo..hi]
  {
  }

  lemma CutsIs<T>(col: seq<T>, n: nat, k: nat, i: nat)
    requires k > 0 && |col| == n * k && i < n
    ensures i * k + k <= |col| && ArrayPart(true, n * k, col, n, i) == col[i * k..i * k + k]
  {
    var sizes, lo := ChunkSizes(n * k, n), i * k;
    EqualSizes(n, k);
    RangeFits(n, k, i);
    if i > 0 {
      CutAt(sizes, k, i - 1);
    }
    NextRange(n, k, i);
    if i < n - 1 {
      CutAt(sizes, k, i);
    }
    BetweenIs(col, ChunkIndices(sizes), i, lo, lo + k);
  }

  lemma NextRange(n: nat, k: nat, i: nat)
    requires i < n
    ensures (i + 1) * k == i * k + k && (i == n - 1 ==> i * k + k == n * k)
  {
  }

  lemma RangeFits(n: nat, k: nat, i: nat)
    requires i < n
    ensures i * k + k <= n * k
  {
    MulMono(i + 1, n, k);
    assert (i + 1) * k == i * k + k;
  }

  lemma TensorPartsAre<T>(cols: Columns<T>, size: nat, n: nat, k: nat, i: nat)
    requires k > 0 && size == n * k && Even(cols, size) && i < n && i * k + k <= size
    ensures TensorParts(cols, n, i) == SliceAll(cols, size, i * k, i * k + k)
  {
    forall key | key in cols ensures TensorPart(cols[key], n, i) == cols[key][i * k..i * k + k] {
      TensorPartIs(cols[key], n, k, i);
    }
  }

  lemma ArrayPartsAre<T>(hasTensors: bool, cols: Columns<T>, size: nat, n: nat, k: nat, i: nat)
    requires k > 0 && size == n * k && Even(cols, size) && i < n && i * k + k <= size
    ensures ArrayParts(hasTensors, size, cols, n, i) == SliceAll(cols, size, i * k, i * k + k)
  {
    forall key | key in cols ensures ArrayPart(hasTensors, size, cols[key], n, i) == cols[key][i * k..i * k + k] {
      if hasTensors {
        CutsIs(cols[key], n, k, i);
      } else {
        SectionIs(cols[key], n, k, i);
      }
    }
  }

  /** Chunk i has the i-th k rows, in the tensors and in the arrays alike. */
  lemma ChunkIsGather<T>(d: Batch<T>, n: nat, k: nat, i: nat)
    requires Valid(d) && k > 0 && d.size == n * k && i < n
    ensures i * k + k <= d.size && ChunkAt(d, n, i) == Gather(d, From(i * k, k))
  {
    RangeFits(n, k, i);
    SliceIsGather(d, i * k, i * k + k);
    TensorPartIs(From(0, d.size), n, k, i);
    SectionIs(From(0, d.size), n, k, i);
    TensorPartsAre(d.tensors, d.size, n, k, i);
    ArrayPartsAre(d.hasTensors, d.arrays, d.size, n, k, i);
  }

  /** One more range of rows. */
  lemma JoinsRange<T>(d: Batch<T>, ds: seq<Batch<T>>, e: Batch<T>, m: nat, k: nat)
    requires Joins(d, ds, From(0, m)) && m + k <= d.size && e == Gather(d, From(m, k))
    ensures Joins(d, ds + [e], From(0, m + k))
  {
    JoinsNext(d, ds, e, From(0, m), From(m, k));
    assert From(0, m) + From(m, k) == From(0, m + k);
  }

  /** The batch e has the i-th k rows of d. */
  ghost predicate RangeAt<T>(d: Batch<T>, e: Batch<T>, i: nat, k: nat)
    requires Valid(d)
  {
    i * k + k <= d.size && e == Gather(d, From(i * k, k))
  }

  /** Concatenating consecutive ranges of rows. */
  lemma {:induction false} ConcatRanges<T>(d: Batch<T>, ds: seq<Batch<T>>, k: nat)
    requires Valid(d) && ds != []
    requires forall i | 0 <= i < |ds| :: RangeAt(d, ds[i], i, k)
    ensures Joins(d, ds, From(0, |ds| * k))
  {
    var m := |ds| - 1;
    var at := m * k;
    assert RangeAt(d, ds[m], m, k);
    NextRange(|ds|, k, m);
    if m == 0 {
      OneRange(d, ds, k);
    } else {
      ConcatRanges(d, ds[..m], k);
      JoinsRange(d, ds[..m], ds[m], at, k);
      assert ds == ds[..m] + [ds[m]];
    }
  }

  lemma OneRange<T>(d: Batch<T>, ds: seq<Batch<T>>, k: nat)
    requires Valid(d) && |ds| == 1 && RangeAt(d, ds[0], 0, k)
    ensures Joins(d, ds, From(0, |ds| * k))
  {
    assert 0 * k == 0 && 1 * k == k;
  }

  lemma SizeOfChunks(size: nat, n: nat) returns (k: nat)
    requires size > 0 && n > 0 && size % n == 0
    ensures k > 0 && size == n * k
  {
    k := size / n;
    Divides(size, n);
  }

  /** Chunking and concatenating gives the batch back. */
  lemma ChunksRejoin<T>(d: Batch<T>, n: nat)
    requires Valid(d) && d.size > 0 && n > 0
    ensures Chunks(d, n).Some? <==> d.size % n == 0
    ensures Chunks(d, n).Some? ==> AllValid(Chunks(d, n).value) && Concat(Chunks(d, n).value) == Some(d)
  {
    if d.size % n == 0 {
      var k := SizeOfChunks(d.size, n);
      var ds := Chunks(d, n).value;
      forall i | 0 <= i < n ensures RangeAt(d, ds[i], i, k) {
        ChunkIsGather(d, n, k, i);
      }
      ConcatRanges(d, ds, k);
      GatherAll(d);
    }
  }

  // ----- splits

  /** `DataProto.split` from row i on: slices of `step` rows, of which the last may be shorter. */
  function SplitFrom<T>(d: Batch<T>, i: nat, step: nat): (r: seq<Batch<T>>)
    requires Valid(d) && step > 0
    ensures AllValid(r)
    decreases d.size - i
  {
    if i >= d.size then []
    else
      var end := if i + step < d.size then i + step else d.size;
      SliceIsGather(d, i, end);
      [Slice(d, i, end)] + SplitFrom(d, i + step, step)
  }

  lemma SplitStep<T>(d: Batch<T>, i: nat, step: nat) returns (end: nat)
    requires Valid(d) && step > 0 && i < d.size
    ensures i < end <= d.size && SplitFrom(d, i, step) == [Slice(d, i, end)] + SplitFrom(d, end, step)
  {
    end := if i + step < d.size then i + step else d.size;
    assert SplitFrom(d, end, step) == SplitFrom(d, i + step, step);
  }

  lemma JoinsSlice<T>(d: Batch<T>, done: seq<Batch<T>>, lo: nat, hi: nat)
    requires lo <= hi <= d.size && Joins(d, done, From(0, lo))
    ensures Joins(d, done + [Slice(d, lo, hi)], From(0, hi))
  {
    SliceIsGather(d, lo, hi);
    JoinsRange(d, done, Slice(d, lo, hi), lo, hi - lo);
  }

  lemma {:induction false} SplitFromJoins<T>(d: Batch<T>, done: seq<Batch<T>>, i: nat, step: nat)
    requires step > 0 && i <= d.size && Joins(d, done, From(0, i))
    ensures Joins(d, done + SplitFrom(d, i, step), From(0, d.size))
    decreases d.size - i
  {
    if i == d.size {
      assert done + [] == done;
    } else {
      var end := SplitStep(d, i, step);
      JoinsSlice(d, done, i, end);
      SplitFromJoins(d, done + [Slice(d, i, end)], end, step);
      Associate(done, [Slice(d, i, end)], SplitFrom(d, end, step));
    }
  }

  /** The `step` rows from `at` on, or as many as there are. */
  function Slab<T>(d: Batch<T>, at: nat, step: nat): Batch<T>
    requires Valid(d) && at <= d.size
  {
    Slice(d, at, if at + step < d.size then at + step else d.size)
  }

  lemma SplitTail<T>(d: Batch<T>, i: nat, step: nat, parts: seq<Batch<T>>)
    requires Valid(d) && step > 0 && i < d.size && parts == SplitFrom(d, i, step)
    ensures parts != [] && parts[0] == Slab(d, i, step) && parts[1..] == SplitFrom(d, i + step, step)
  {
  }

  function Skip(step: nat, k: nat): nat {
    if k == 0 then 0 else step + Skip(step, k - 1)
  }

  lemma {:induction false} SkipIs(step: nat, k: nat)
    ensures Skip(step, k) == k * step
  {
    if k > 0 {
      SkipIs(step, k - 1);
      assert k * step == step + (k - 1) * step;
    }
  }

  lemma {:induction false} SplitFromAt<T>(d: Batch<T>, i: nat, step: nat, parts: seq<Batch<T>>, k: nat, at: nat)
    requires Valid(d) && step > 0 && parts == SplitFrom(d, i, step) && k < |parts| && at == i + Skip(step, k)
    ensures at < d.size && parts[k] == Slab(d, at, step)
    decreases k
  {
    SplitTail(d, i, step, parts);
    if k > 0 {
      SplitFromAt(d, i + step, step, parts[1..], k - 1, at);
    }
  }

  lemma SlabIs<T>(d: Batch<T>, at: nat, step: nat)
    requires Valid(d) && at <= d.size
    ensures Slab(d, at, step) == Gather(d, From(at, if at + step < d.size then step else d.size - at))
  {
    SliceIsGather(d, at, if at + step < d.size then at + step else d.size);
  }

  lemma {:induction false} SplitFromCount<T>(d: Batch<T>, i: nat, step: nat)
    requires Valid(d) && step > 0 && i < d.size
    ensures |SplitFrom(d, i, step)| == (d.size - i + step - 1) / step
    decreases d.size - i
  {
    if i + step < d.size {
      SplitFromCount(d, i + step, step);
      OneLess(d.size - i - 1, step);
    } else {
      DivUnique(d.size - i + step - 1, step, 1, d.size - i - 1);
    }
  }

  /** Slice k of a split has the rows from k * step on, `step` of them or as many as there are. */
  lemma SplitIs<T>(d: Batch<T>, step: nat, parts: seq<Batch<T>>, k: nat, at: nat, n: nat)
    requires Valid(d) && d.size > 0 && step > 0 && parts == SplitFrom(d, 0, step)
    requires at == k * step && n == if at + step < d.size then step else d.size - at
    ensures |parts| == (d.size + step - 1) / step
    ensures k < |parts| ==> at < d.size && parts[k] == Gather(d, From(at, n))
  {
    SplitFromCount(d, 0, step);
    if k < |parts| {
      SkipIs(step, k);
      SplitFromAt(d, 0, step, parts, k, at);
      SlabIs(d, at, step);
    }
  }

  /** Splitting into slices of any size and concatenating gives the batch back. */
  lemma SplitRejoins<T>(d: Batch<T>, step: nat)
    requires Valid(d) && d.size > 0 && step > 0
    ensures Concat(SplitFrom(d, 0, step)) == Some(d)
  {
    var end := SplitStep(d, 0, step);
    SliceIsGather(d, 0, end);
    assert Joins(d, [Slice(d, 0, end)], From(0, end));
    SplitFromJoins(d, [Slice(d, 0, end)], end, step);
    GatherAll(d);
  }
}
