/** Numbers across pipeline stages: when the global layer numbers fill the range they should, and how
    the output files of all ranks share the range of file numbers. */
module StageTiling {
  import opened Sequences
  import opened LayerNumbering

  // ----- layer numbers of a list of chunks

  /** The chunk has the local layers 0 to n - 1, and no others. */
  ghost predicate HasLayers<T>(chunk: Chunk<T>, n: nat) {
    && (forall i | 0 <= i < |chunk| && chunk[i].key.InLayer? :: chunk[i].key.no < n)
    && forall l | 0 <= l < n :: HasEntry(chunk, l)
  }

  ghost predicate HasEntry<T>(chunk: Chunk<T>, l: nat) {
    exists i :: 0 <= i < |chunk| && chunk[i].key.InLayer? && chunk[i].key.no == l
  }

  ghost predicate HasSizes<T>(chunks: seq<Chunk<T>>, sizes: seq<nat>) {
    |chunks| == |sizes| && forall c | 0 <= c < |sizes| :: HasLayers(chunks[c], sizes[c])
  }

  function Max(x: nat, y: nat): nat {
    if x >= y then x else y
  }

  /** Where the numbering stands after chunks of these sizes: an empty chunk takes one number too. */
  function BaseOf(start: nat, sizes: seq<nat>): nat {
    if sizes == [] then start else BaseOf(start, sizes[..|sizes| - 1]) + Max(sizes[|sizes| - 1], 1)
  }

  lemma {:induction false} HandledIs<T>(chunk: Chunk<T>, n: nat)
    requires HasLayers(chunk, n)
    ensures Handled(chunk) + 1 == Max(n, 1)
  {
    if n > 0 {
      assert HasEntry(chunk, n - 1);
      var i :| 0 <= i < |chunk| && chunk[i].key.InLayer? && chunk[i].key.no == n - 1;
      HandledBounds(chunk, i);
    }
    HandledBelow(chunk, Max(n, 1));
  }

  lemma {:induction false} HandledBelow<T>(chunk: Chunk<T>, m: nat)
    requires m > 0 && forall i | 0 <= i < |chunk| && chunk[i].key.InLayer? :: chunk[i].key.no < m
    ensures Handled(chunk) < m
  {
    if chunk != [] {
      HandledBelow(chunk[..|chunk| - 1], m);
    }
  }

  lemma {:induction false} BaseIs<T>(start: nat, chunks: seq<Chunk<T>>, sizes: seq<nat>)
    requires HasSizes(chunks, sizes)
    ensures Base(start, chunks) == BaseOf(start, sizes)
  {
    if chunks != [] {
      var n := |chunks| - 1;
      BaseIs(start, chunks[..n], sizes[..n]);
      HandledIs(chunks[n], sizes[n]);
    }
  }

  /** Layer l of chunk c gets the number g. */
  ghost predicate NumberOf(start: nat, sizes: seq<nat>, c: nat, l: nat, g: nat) {
    c < |sizes| && l < sizes[c] && g == BaseOf(start, sizes[..c]) + l
  }

  ghost predicate Numbered(start: nat, sizes: seq<nat>, g: nat) {
    exists c: nat, l: nat :: NumberOf(start, sizes, c, l, g)
  }

  ghost predicate HasLayer<T>(state: map<Key, T>, g: nat) {
    exists key :: key in state && key.InLayer? && key.no == g
  }

  /** The layer numbers in the merged dict are those given to the layers of the chunks. */
  lemma MergedLayers<T>(start: nat, chunks: seq<Chunk<T>>, sizes: seq<nat>, g: nat)
    requires HasSizes(chunks, sizes)
    ensures HasLayer(AsDict(Renumbered(start, chunks)), g) <==> Numbered(start, sizes, g)
  {
    var entries := Renumbered(start, chunks);
    DictKeys(entries);
    if HasLayer(AsDict(entries), g) {
      var key :| key in AsDict(entries) && key.InLayer? && key.no == g;
      var k: nat :| 0 <= k < |entries| && entries[k].key == key;
      var c, i := Source(start, chunks, k);
      BaseIs(start, chunks[..c], sizes[..c]);
      assert HasLayers(chunks[c], sizes[c]);
      assert NumberOf(start, sizes, c, chunks[c][i].key.no, g);
    }
    if Numbered(start, sizes, g) {
      var c: nat, l: nat :| NumberOf(start, sizes, c, l, g);
      assert HasLayers(chunks[c], sizes[c]) && HasEntry(chunks[c], l);
      var i: nat :| 0 <= i < |chunks[c]| && chunks[c][i].key.InLayer? && chunks[c][i].key.no == l;
      var k := Place(start, chunks, c, i);
      BaseIs(start, chunks[..c], sizes[..c]);
      assert entries[k].key in AsDict(entries);
    }
  }

  /** In the merged dict layer l of chunk c has the number l more than all layers of the chunks before it, from
      `start` on, if none of those is without layers; a name outside of the layers stays as it is. */
  lemma TensorGoesTo<T>(start: nat, chunks: seq<Chunk<T>>, sizes: seq<nat>, c: nat, i: nat)
    requires HasSizes(chunks, sizes) && c < |chunks| && i < |chunks[c]|
    requires (forall d | 0 <= d < |chunks| :: Distinct(chunks[d])) && PlainOnce(chunks)
    requires forall d | 0 <= d < c :: sizes[d] > 0
    ensures var state, e := AsDict(Renumbered(start, chunks)), chunks[c][i];
            var key := match e.key
                       case Plain(kind) => Plain(kind)
                       case InLayer(l, kind) => InLayer(start + Sum(sizes[..c]) + l, kind);
            key in state && state[key] == e.tensor
  {
    EveryTensorKept(start, chunks);
    BaseIs(start, chunks[..c], sizes[..c]);
    BaseVersusSum(start, sizes[..c]);
  }

  /** Two layers never get the same number, whatever the sizes. */
  lemma NumbersDiffer(start: nat, sizes: seq<nat>, c: nat, l: nat, d: nat, m: nat, g: nat)
    requires NumberOf(start, sizes, c, l, g) && NumberOf(start, sizes, d, m, g)
    ensures c == d && l == m
  {
    if c < d {
      BaseGrows(start, sizes, c, d);
    } else if d < c {
      BaseGrows(start, sizes, d, c);
    }
  }

  lemma {:induction false} BaseGrows(start: nat, sizes: seq<nat>, c: nat, d: nat)
    requires c < d <= |sizes|
    ensures BaseOf(start, sizes[..c]) + Max(sizes[c], 1) <= BaseOf(start, sizes[..d])
    decreases d
  {
    assert sizes[..d][..d - 1] == sizes[..d - 1];
    if c < d - 1 {
      BaseGrows(start, sizes, c, d - 1);
    }
  }

  /** No empty chunk comes before one with layers. */
  ghost predicate NoGap(sizes: seq<nat>) {
    forall c, d | 0 <= c < d < |sizes| :: sizes[c] > 0 || sizes[d] == 0
  }

  ghost predicate Fills(start: nat, sizes: seq<nat>) {
    forall g: nat :: Numbered(start, sizes, g) <==> start <= g < start + Sum(sizes)
  }

  lemma NumberedLast(start: nat, sizes: seq<nat>, g: nat)
    requires sizes != []
    ensures var rest, n := sizes[..|sizes| - 1], sizes[|sizes| - 1];
            Numbered(start, sizes, g) <==>
              Numbered(start, rest, g) || BaseOf(start, rest) <= g < BaseOf(start, rest) + n
  {
    var last := |sizes| - 1;
    var rest := sizes[..last];
    if Numbered(start, sizes, g) {
      var c: nat, l: nat :| NumberOf(start, sizes, c, l, g);
      if c < last {
        assert rest[..c] == sizes[..c];
        assert NumberOf(start, rest, c, l, g);
      }
    }
    if Numbered(start, rest, g) {
      var c: nat, l: nat :| NumberOf(start, rest, c, l, g);
      assert rest[..c] == sizes[..c];
      assert NumberOf(start, sizes, c, l, g);
    }
    if BaseOf(start, rest) <= g < BaseOf(start, rest) + sizes[last] {
      assert NumberOf(start, sizes, last, g - BaseOf(start, rest), g);
    }
  }

  lemma {:induction false} BaseVersusSum(start: nat, sizes: seq<nat>)
    ensures BaseOf(start, sizes) >= start + Sum(sizes)
    ensures BaseOf(start, sizes) == start + Sum(sizes) <==> forall c | 0 <= c < |sizes| :: sizes[c] > 0
  {
    if sizes != [] {
      var last := |sizes| - 1;
      BaseVersusSum(start, sizes[..last]);
      assert forall c | 0 <= c < last :: sizes[..last][c] == sizes[c];
    }
  }

  lemma {:induction false} NoGapFills(start: nat, sizes: seq<nat>)
    requires NoGap(sizes)
    ensures Fills(start, sizes)
  {
    if sizes != [] {
      var last := |sizes| - 1;
      NoGapFills(start, sizes[..last]);
      BaseVersusSum(start, sizes[..last]);
      forall g: nat ensures Numbered(start, sizes, g) <==> start <= g < start + Sum(sizes) {
        NumberedLast(start, sizes, g);
      }
    } else {
      assert forall g: nat :: !Numbered(start, sizes, g);
    }
  }

  /** With an empty chunk before one with layers, some layer is numbered past the range. */
  lemma {:induction false} GapOverflows(start: nat, sizes: seq<nat>) returns (g: nat)
    requires !NoGap(sizes)
    ensures Numbered(start, sizes, g) && g >= start + Sum(sizes)
  {
    var last := |sizes| - 1;
    var rest := sizes[..last];
    if sizes[last] == 0 {
      assert !NoGap(rest) by {
        var c, d :| 0 <= c < d < |sizes| && sizes[c] == 0 && sizes[d] > 0;
        assert rest[c] == 0 && rest[d] > 0;
      }
      g := GapOverflows(start, rest);
      NumberedLast(start, sizes, g);
    } else {
      BaseVersusSum(start, rest);
      g := BaseOf(start, rest) + sizes[last] - 1;
      NumberedLast(start, sizes, g);
      assert exists c :: 0 <= c < |rest| && rest[c] == 0 by {
        var c, d :| 0 <= c < d < |sizes| && sizes[c] == 0 && sizes[d] > 0;
        assert rest[c] == 0;
      }
    }
  }

  /** The layers in the dict are those from start up, n of them, without a hole. */
  ghost predicate LayersAre<T>(state: map<Key, T>, start: nat, n: nat) {
    forall g: nat :: HasLayer(state, g) <==> start <= g < start + n
  }

  /** The layers of the chunks are numbered start, start + 1, ... without a hole exactly when no empty
      chunk comes before one with layers. */
  lemma LayersTileIff<T>(start: nat, chunks: seq<Chunk<T>>, sizes: seq<nat>)
    requires HasSizes(chunks, sizes)
    ensures LayersAre(AsDict(Renumbered(start, chunks)), start, Sum(sizes)) <==> NoGap(sizes)
  {
    var state := AsDict(Renumbered(start, chunks));
    if NoGap(sizes) {
      NoGapFills(start, sizes);
      forall g: nat ensures HasLayer(state, g) <==> start <= g < start + Sum(sizes) {
        MergedLayers(start, chunks, sizes, g);
      }
    } else {
      var g := GapOverflows(start, sizes);
      MergedLayers(start, chunks, sizes, g);
    }
  }

  lemma OneEntry(e: Entry<int>, base: nat)
    ensures Shifted([e], base) == [Entry(Renamed(e.key, base), e.tensor)]
    ensures Handled([e]) == if e.key.InLayer? then e.key.no else 0
  {
    assert [e][..0] == [];
  }

  lemma TwoEntries(d: Entry<int>, e: Entry<int>)
    ensures AsDict([d, e]) == map[d.key := d.tensor][e.key := e.tensor]
  {
    assert [d, e][..1] == [d] && [d][..0] == [];
    assert AsDict([d]) == map[d.key := d.tensor];
  }

  lemma TwoChunks(d: Entry<int>, e: Entry<int>)
    requires d.key.Plain?
    ensures Renumbered(0, [[d], [e]]) == [d, Entry(Renamed(e.key, 1), e.tensor)]
  {
    OneEntry(d, 0);
    OneEntry(e, 1);
    assert [[d], [e]][..1] == [[d]] && [[d]][..0] == [];
    assert Base(0, [[d]]) == 1 && Renumbered(0, [[d]]) == [d];
  }

  /** A first chunk that holds only the embedding moves the one layer of the second to number 1. */
  lemma EmbeddingChunkLeavesHole()
    ensures var chunks := [[Entry(Plain("embedding"), 0)], [Entry(InLayer(0, "weight"), 1)]];
            AsDict(Renumbered(0, chunks)) == map[Plain("embedding") := 0, InLayer(1, "weight") := 1]
  {
    TwoChunks(Entry(Plain("embedding"), 0), Entry(InLayer(0, "weight"), 1));
    TwoEntries(Entry(Plain("embedding"), 0), Entry(InLayer(1, "weight"), 1));
  }

  /** Equal chunks in the order virtual stage, then pipeline rank: chunk (v, p) starts at v * pp * m + p * m. */
  lemma {:induction false} InterleavedStages(sizes: seq<nat>, m: nat, pp: nat, v: nat, p: nat)
    requires m > 0 && p < pp && |sizes| == v * pp + p && forall c | 0 <= c < |sizes| :: sizes[c] == m
    ensures BaseOf(0, sizes) == v * (pp * m) + p * m
  {
    EqualChunks(sizes, m);
    assert (v * pp + p) * m == v * (pp * m) + p * m;
  }

  lemma {:induction false} EqualChunks(sizes: seq<nat>, m: nat)
    requires m > 0 && forall c | 0 <= c < |sizes| :: sizes[c] == m
    ensures BaseOf(0, sizes) == |sizes| * m
  {
    if sizes != [] {
      EqualChunks(sizes[..|sizes| - 1], m);
    }
  }

  // ----- across the ranks

  /** `np.cumsum`, entry by entry. */
  method CumSum(sizes: seq<nat>) returns (sums: seq<nat>)
    ensures |sums| == |sizes| && forall r | 0 <= r < |sizes| :: sums[r] == Sum(sizes[..r + 1])
  {
    sums := [];
    var total := 0;
    for r := 0 to |sizes|
      invariant total == Sum(sizes[..r]) && |sums| == r
      invariant forall q | 0 <= q < r :: sums[q] == Sum(sizes[..q + 1])
    {
      assert sizes[..r + 1][..r] == sizes[..r];
      total := total + sizes[r];
      sums := sums + [total];
    }
  }

  /** The first layer of rank r. */
  function Start(shards: seq<nat>, r: nat): nat
    requires r <= |shards|
  {
    Sum(shards[..r])
  }

  method LayerStart(shards: seq<nat>, rank: nat) returns (first: nat)
    requires rank < |shards|
    ensures first == Start(shards, rank)
  {
    var sums := CumSum(shards);
    first := if rank == 0 then 0 else sums[rank - 1];
  }

  lemma StartNext(shards: seq<nat>, r: nat)
    requires r < |shards|
    ensures Start(shards, r + 1) == Start(shards, r) + shards[r]
  {
    assert shards[..r + 1][..r] == shards[..r];
  }

  lemma {:induction false} StartGrows(shards: seq<nat>, r: nat, q: nat)
    requires r <= q <= |shards|
    ensures Start(shards, r) <= Start(shards, q)
    decreases q
  {
    if r < q {
      StartGrows(shards, r, q - 1);
      StartNext(shards, q - 1);
    }
  }

  predicate Owns(shards: seq<nat>, r: nat, g: nat) {
    r < |shards| && Start(shards, r) <= g < Start(shards, r) + shards[r]
  }

  lemma OwnedBelowSum(shards: seq<nat>, r: nat, g: nat)
    ensures Owns(shards, r, g) ==> g < Sum(shards)
  {
    if Owns(shards, r, g) {
      StartNext(shards, r);
      StartGrows(shards, r + 1, |shards|);
      assert shards[..|shards|] == shards;
    }
  }

  /** Every number below the total belongs to exactly one rank. */
  lemma {:induction false} Owner(shards: seq<nat>, g: nat) returns (r: nat)
    requires g < Sum(shards)
    ensures Owns(shards, r, g)
    ensures forall q: nat | Owns(shards, q, g) :: q == r
  {
    r := FindOwner(shards, g);
    forall q: nat | Owns(shards, q, g) ensures q == r {
      StartNext(shards, q);
      StartNext(shards, r);
      if q < r {
        StartGrows(shards, q + 1, r);
      } else if r < q {
        StartGrows(shards, r + 1, q);
      }
    }
  }

  lemma {:induction false} FindOwner(shards: seq<nat>, g: nat) returns (r: nat)
    requires g < Sum(shards)
    ensures Owns(shards, r, g)
  {
    var last := |shards| - 1;
    if g < Sum(shards[..last]) {
      r := FindOwner(shards[..last], g);
      assert shards[..last][..r] == shards[..r];
    } else {
      r := last;
    }
  }

  /** When each rank merges its one chunk from its own first layer on, the global layers 0 to L - 1 are
      each in the dict of exactly one rank, and no rank has any other. */
  lemma RanksTile<T>(chunks: seq<Chunk<T>>, shards: seq<nat>, g: nat)
    requires HasSizes(chunks, shards)
    ensures g < Sum(shards) <==> exists r :: 0 <= r < |shards| && InDictOf(chunks, shards, r, g)
    ensures forall r, q | 0 <= r < |shards| && 0 <= q < |shards|
                          && InDictOf(chunks, shards, r, g) && InDictOf(chunks, shards, q, g) ::
              r == q
  {
    forall r | 0 <= r < |shards| ensures InDictOf(chunks, shards, r, g) <==> Owns(shards, r, g) {
      OneChunk(chunks, shards, r, g);
    }
    if g < Sum(shards) {
      var r := Owner(shards, g);
    }
    forall r | 0 <= r < |shards| && InDictOf(chunks, shards, r, g) ensures g < Sum(shards) {
      OwnedBelowSum(shards, r, g);
    }
  }

  ghost predicate InDictOf<T>(chunks: seq<Chunk<T>>, shards: seq<nat>, r: nat, g: nat)
    requires r < |shards| == |chunks|
  {
    HasLayer(AsDict(Renumbered(Start(shards, r), [chunks[r]])), g)
  }

  lemma OneChunk<T>(chunks: seq<Chunk<T>>, shards: seq<nat>, r: nat, g: nat)
    requires HasSizes(chunks, shards) && r < |shards|
    ensures InDictOf(chunks, shards, r, g) <==> Owns(shards, r, g)
  {
    var sizes := [shards[r]];
    assert HasSizes([chunks[r]], sizes);
    MergedLayers(Start(shards, r), [chunks[r]], sizes, g);
    NumberedLast(Start(shards, r), sizes, g);
    assert sizes[..0] == [];
    assert !Numbered(Start(shards, r), [], g);
  }
}
