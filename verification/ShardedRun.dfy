/** A row-wise worker on many shards: pad, chunk, work on each chunk, concatenate, unpad. */
module ShardedRun {
  import opened Wrappers
  import opened Arithmetic
  import opened DataProto

  /** The worker keeps the number of rows, and rows chosen before or after the work are the same rows. */
  ghost predicate RowWise<T(!new), U(!new)>(work: Batch<T> -> Batch<U>) {
    && (forall d: Batch<T> {:trigger work(d)} | Valid(d) :: Valid(work(d)) && work(d).size == d.size)
    && forall d: Batch<T>, rows: seq<nat> {:trigger work(Gather(d, rows))} | Valid(d) && InRange(rows, d.size) ::
         work(Gather(d, rows)) == Gather(work(d), rows)
  }

  function WorkAll<T, U>(work: Batch<T> -> Batch<U>, ds: seq<Batch<T>>): seq<Batch<U>> {
    seq(|ds|, i requires 0 <= i < |ds| => work(ds[i]))
  }

  /** What the driver gets from n workers. */
  ghost function RunSharded<T(!new), U(!new)>(work: Batch<T> -> Batch<U>, d: Batch<T>, n: nat): Option<Batch<U>>
    requires RowWise(work) && Valid(d) && d.size > 0 && n > 0
  {
    var (padded, pad) := Padded(d, n);
    var chunks := Chunks(padded, n);
    if chunks.None? then None
    else
      var outs := WorkAll(work, chunks.value);
      if !AllValid(outs) || Concat(outs).None? then None
      else Some(Unpad(Concat(outs).value, pad))
  }

  /** The padded size is the next multiple, row i is row i mod len, and the rows of the batch come first. */
  lemma PaddedRows<T>(d: Batch<T>, divisor: nat)
    requires Valid(d) && d.size > 0 && divisor > 0
    ensures var (padded, pad) := Padded(d, divisor);
            && padded == Gather(d, Wrap(d.size, d.size + pad))
            && pad < divisor && (d.size + pad) % divisor == 0
            && Slice(padded, 0, d.size) == d
            && (forall key, i | key in d.tensors && 0 <= i < d.size + pad ::
                  key in padded.tensors && padded.tensors[key][i] == d.tensors[key][i % d.size])
            && (forall key, i | key in d.arrays && 0 <= i < d.size + pad ::
                  key in padded.arrays && padded.arrays[key][i] == d.arrays[key][i % d.size])
  {
    NextMultiple(d.size, divisor);
    GatherAll(d);
    WrapStart(d.size, d.size);
    assert From(0, d.size) == Pick(Wrap(d.size, d.size), From(0, d.size)) == Wrap(d.size, d.size);
    FirstOfWrapped(d, Padded(d, divisor).1);
  }

  lemma WrapStart(n: nat, m: nat)
    requires 0 < n <= m
    ensures Pick(Wrap(n, m), From(0, n)) == From(0, n)
  {
    forall i | 0 <= i < n ensures Wrap(n, m)[i] == i {
      DivUnique(i, n, 0, i);
    }
  }

  lemma FirstOfWrapped<T>(d: Batch<T>, pad: nat)
    requires Valid(d) && d.size > 0
    ensures Slice(Gather(d, Wrap(d.size, d.size + pad)), 0, d.size) == d
  {
    var rows := Wrap(d.size, d.size + pad);
    SliceIsGather(Gather(d, rows), 0, d.size);
    GatherGather(d, rows, From(0, d.size));
    WrapStart(d.size, d.size + pad);
    GatherAll(d);
  }

  lemma NextMultiple(m: nat, n: nat)
    requires n > 0
    ensures (m + (if m % n == 0 then 0 else n - m % n)) % n == 0
  {
    if m % n != 0 {
      DivUnique(m + (n - m % n), n, m / n + 1, 0);
    }
  }

  lemma UnpadPadded<T>(d: Batch<T>, e: Batch<T>, pad: nat)
    requires Valid(d) && Valid(e) && e.size == d.size + pad && Slice(e, 0, d.size) == d
    ensures Unpad(e, pad) == d
  {
    if pad == 0 {
      SliceIsGather(e, 0, e.size);
      GatherAll(e);
    }
  }

  /** Removing more rows than there are leaves none. */
  lemma UnpadDropsLast<T>(d: Batch<T>, pad: nat)
    requires Valid(d)
    ensures Unpad(d, pad) == Gather(d, From(0, if pad <= d.size then d.size - pad else 0))
  {
    if pad == 0 {
      GatherAll(d);
    } else {
      SliceIsGather(d, 0, if pad <= d.size then d.size - pad else 0);
    }
  }

  /** Work commutes with chunking. */
  lemma WorkOnChunks<T(!new), U(!new)>(work: Batch<T> -> Batch<U>, d: Batch<T>, n: nat)
    requires RowWise(work) && Valid(d) && d.size > 0 && n > 0 && d.size % n == 0
    ensures Chunks(d, n).Some?
    ensures var outs := WorkAll(work, Chunks(d, n).value);
            AllValid(outs) && Concat(outs) == Some(work(d)) && Chunks(work(d), n) == Some(outs)
  {
    var outs := WorkAll(work, Chunks(d, n).value);
    var k := SizeOfChunks(d.size, n);
    forall i | 0 <= i < n ensures outs[i] == ChunkAt(work(d), n, i) {
      ChunkIsGather(d, n, k, i);
      ChunkIsGather(work(d), n, k, i);
    }
    assert Chunks(work(d), n).value == outs;
    ChunksRejoin(work(d), n);
  }

  lemma WorkOnSlice<T(!new), U(!new)>(work: Batch<T> -> Batch<U>, d: Batch<T>, n: nat)
    requires RowWise(work) && Valid(d) && n <= d.size
    ensures Slice(work(d), 0, n) == work(Slice(d, 0, n))
  {
    SliceIsGather(d, 0, n);
    SliceIsGather(work(d), 0, n);
    assert work(Gather(d, From(0, n))) == Gather(work(d), From(0, n));
  }

  /** On any number of workers the result is that of the worker on the whole batch. */
  lemma ShardedRunIsRun<T(!new), U(!new)>(work: Batch<T> -> Batch<U>, d: Batch<T>, n: nat)
    requires RowWise(work) && Valid(d) && d.size > 0 && n > 0
    ensures RunSharded(work, d, n) == Some(work(d))
  {
    PaddedRows(d, n);
    var (padded, pad) := Padded(d, n);
    WorkOnChunks(work, padded, n);
    WorkOnSlice(work, padded, d.size);
    UnpadPadded(work(d), work(padded), pad);
  }

  // ----- a function of the whole row is row-wise

  datatype Row<T> = Row(tensors: map<string, T>, arrays: map<string, T>)

  function RowAt<T>(d: Batch<T>, i: nat): Row<T>
    requires Valid(d) && i < d.size
  {
    Row(map key | key in d.tensors :: d.tensors[key][i], map key | key in d.arrays :: d.arrays[key][i])
  }

  /** The worker that puts f of each row in a column. */
  function ByRow<T, U>(f: Row<T> -> U, name: string): Batch<T> -> Batch<U> {
    (d: Batch<T>) =>
      var column := seq(d.size, i requires 0 <= i < d.size =>
                        if Valid(d) then f(RowAt(d, i)) else f(Row(map[], map[])));
      Batch(d.size, true, map[name := column], map[])
  }

  lemma RowOfGather<T>(d: Batch<T>, rows: seq<nat>, i: nat)
    requires Valid(d) && InRange(rows, d.size) && i < |rows|
    ensures RowAt(Gather(d, rows), i) == RowAt(d, rows[i])
  {
  }

  lemma ByRowIsRowWise<T(!new), U(!new)>(f: Row<T> -> U, name: string)
    ensures RowWise(ByRow(f, name))
  {
    var work := ByRow(f, name);
    forall d: Batch<T>, rows: seq<nat> | Valid(d) && InRange(rows, d.size)
      ensures work(Gather(d, rows)) == Gather(work(d), rows)
    {
      forall i | 0 <= i < |rows| ensures RowAt(Gather(d, rows), i) == RowAt(d, rows[i]) {
        RowOfGather(d, rows, i);
      }
      assert work(Gather(d, rows)).tensors[name] == Gather(work(d), rows).tensors[name];
    }
  }

  /** Padding, chunking, working per chunk, concatenating and unpadding gives f of each original row. */
  lemma ShardedRunMapsRows<T(!new), U(!new)>(f: Row<T> -> U, name: string, d: Batch<T>, n: nat)
    requires Valid(d) && d.size > 0 && n > 0
    ensures RowWise(ByRow(f, name))
    ensures var r := RunSharded(ByRow(f, name), d, n);
            && r.Some? && r.value.size == d.size && r.value.tensors.Keys == {name}
            && forall i | 0 <= i < d.size ::
                 |r.value.tensors[name]| == d.size && r.value.tensors[name][i] == f(RowAt(d, i))
  {
    ByRowIsRowWise(f, name);
    ShardedRunIsRun(ByRow(f, name), d, n);
  }

  // ----- futures

  /** What each of m workers gets from the future of n outputs: its chunk of their concatenation. */
  function FutureGet<T>(outputs: seq<Batch<T>>, m: nat, i: nat): Option<Batch<T>>
    requires AllValid(outputs) && i < m
  {
    var all := Concat(outputs);
    if all.None? || all.value.size == 0 then None
    else
      var chunks := Chunks(all.value, m);
      if chunks.None? then None else Some(chunks.value[i])
  }

  /** Future i of the future of the outputs of a row-wise worker gives what the worker makes of the i-th
      chunk; concatenated, they give the outputs again. */
  lemma FuturesPassOn<T(!new), U(!new)>(work: Batch<T> -> Batch<U>, d: Batch<T>, n: nat, m: nat)
    requires RowWise(work) && Valid(d) && d.size > 0 && n > 0 && m > 0 && d.size % n == 0 && d.size % m == 0
    ensures var outs := WorkAll(work, Chunks(d, n).value);
            && AllValid(outs)
            && forall i | 0 <= i < m :: FutureGet(outs, m, i) == Some(work(ChunkAt(d, m, i)))
  {
    WorkOnChunks(work, d, n);
    WorkOnChunks(work, d, m);
  }
}
