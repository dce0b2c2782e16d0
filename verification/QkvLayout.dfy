/** The row layout of fused attention and MLP weights: q, k and v interleaved by key-value group, gate
    and up stacked, both cut into tensor-parallel shards, and the merge that takes them apart again. */
module QkvLayout {
  import opened Wrappers
  import opened Sequences
  import opened Arithmetic
  import opened Splitting

  /** Group i of the fused weight: the a query rows of the group, its b key rows, its b value rows. */
  function Group<T>(q: seq<T>, k: seq<T>, v: seq<T>, a: nat, b: nat): seq<T>
    requires |q| >= a && |k| >= b && |v| >= b
  {
    q[..a] + k[..b] + v[..b]
  }

  /** `torch.cat([q, k, v], dim=1)` of the three weights viewed as g groups of rows. */
  function Groups<T>(q: seq<T>, k: seq<T>, v: seq<T>, g: nat, a: nat, b: nat): (r: seq<seq<T>>)
    requires |q| == g * a && |k| == g * b && |v| == g * b
    ensures |r| == g
    ensures forall i | 0 <= i < g :: |r[i]| == a + b + b
    decreases g
  {
    if g == 0 then []
    else
      assert g * a == a + (g - 1) * a && g * b == b + (g - 1) * b;
      [Group(q, k, v, a, b)] + Groups(q[a..], k[b..], v[b..], g - 1, a, b)
  }

  function Interleave<T>(q: seq<T>, k: seq<T>, v: seq<T>, g: nat, a: nat, b: nat): seq<T>
    requires |q| == g * a && |k| == g * b && |v| == g * b
  {
    Join(Groups(q, k, v, g, a, b))
  }

  function ChunkEach<T>(shards: seq<seq<T>>, n: nat): (r: seq<seq<seq<T>>>)
    requires n > 0
    ensures |r| == |shards|
  {
    seq(|shards|, i requires 0 <= i < |shards| => Chunk(shards[i], n))
  }

  function AllChunks<T>(shards: seq<seq<T>>, n: nat): seq<seq<T>>
    requires n > 0
  {
    Join(ChunkEach(shards, n))
  }

  /** Rows lo to hi of every part, in order. */
  function Slices<T>(parts: seq<seq<T>>, w: nat, lo: nat, hi: nat): seq<T>
    requires lo <= hi <= w && Sized(parts, w)
  {
    if parts == [] then [] else Slices(parts[..|parts| - 1], w, lo, hi) + parts[|parts| - 1][lo..hi]
  }

  lemma SlicesSnoc<T>(parts: seq<seq<T>>, p: seq<T>, w: nat, lo: nat, hi: nat)
    requires lo <= hi <= w == |p| && Sized(parts, w)
    ensures Slices(parts + [p], w, lo, hi) == Slices(parts, w, lo, hi) + p[lo..hi]
  {
    assert (parts + [p])[..|parts|] == parts;
  }

  /** The rows of q and of k (and v) in one group, as the merge computes them from the first shard. */
  function GroupRows<T>(tpData: seq<seq<T>>, heads: nat, kvHeads: nat): (nat, nat)
    requires 0 < |tpData| <= kvHeads
  {
    var nq, n := heads / kvHeads, Share(kvHeads, |tpData|);
    var kv := |tpData[0]| / (nq + 2);
    (Div(kv * nq, n), Div(kv, n))
  }

  function Div(x: nat, y: nat): nat
    requires y > 0
  {
    x / y
  }

  function Share(kvHeads: nat, t: nat): (n: nat)
    requires 0 < t <= kvHeads
    ensures n > 0
  {
    DivPositive(kvHeads, t);
    kvHeads / t
  }

  /** The asserts of the merge, the split of no pieces at all, and the sizes of every split. */
  predicate Mergeable<T>(tpData: seq<seq<T>>, heads: nat, kvHeads: nat) {
    && 0 < |tpData| <= kvHeads
    && heads % kvHeads == 0
    && |tpData[0]| % (heads / kvHeads + 2) == 0
    && var (a, b) := GroupRows(tpData, heads, kvHeads);
       Sized(AllChunks(tpData, Share(kvHeads, |tpData|)), a + b + b)
  }

  /** q, k and v rows of equal groups, each collected over the groups. */
  function Parted<T>(parts: seq<seq<T>>, a: nat, b: nat): (seq<T>, seq<T>, seq<T>)
    requires Sized(parts, a + b + b)
  {
    var w := a + b + b;
    (Slices(parts, w, 0, a), Slices(parts, w, a, a + b), Slices(parts, w, a + b, w))
  }

  lemma PartedSnoc<T>(parts: seq<seq<T>>, c: seq<T>, a: nat, b: nat)
    requires Sized(parts, a + b + b) && |c| == a + b + b
    ensures var (q, k, v) := Parted(parts, a, b);
            Parted(parts + [c], a, b) == (q + c[0..a], k + c[a..a + b], v + c[a + b..a + b + b])
  {
    var w := a + b + b;
    SlicesSnoc(parts, c, w, 0, a);
    SlicesSnoc(parts, c, w, a, a + b);
    SlicesSnoc(parts, c, w, a + b, w);
  }

  /** What merging the shards gives; None where the merge raises. */
  function Merged<T>(tpData: seq<seq<T>>, heads: nat, kvHeads: nat): Option<(seq<T>, seq<T>, seq<T>)> {
    if !Mergeable(tpData, heads, kvHeads) then None
    else
      var (a, b) := GroupRows(tpData, heads, kvHeads);
      Some(Parted(AllChunks(tpData, Share(kvHeads, |tpData|)), a, b))
  }

  /** Takes a fused attention weight apart, from its tensor-parallel shards. */
  method MergeQkv<T>(tpData: seq<seq<T>>, heads: nat, kvHeads: nat) returns (r: Option<(seq<T>, seq<T>, seq<T>)>)
    ensures r == Merged(tpData, heads, kvHeads)
    ensures r.Some? ==>
              && 0 < |tpData| <= kvHeads && heads % kvHeads == 0 && |tpData[0]| % (heads / kvHeads + 2) == 0
  {
    if |tpData| == 0 || kvHeads == 0 || heads % kvHeads != 0 {
      return None;
    }
    var numQPerKv := heads / kvHeads;
    if |tpData[0]| % (numQPerKv + 2) != 0 || kvHeads < |tpData| {
      return None;
    }
    var n := Share(kvHeads, |tpData|);
    var (a, b) := GroupRows(tpData, heads, kvHeads);
    r := CollectQkv(tpData, n, a, b);
  }

  lemma MissizedChunk<T>(shards: seq<seq<T>>, n: nat, w: nat, i: nat, j: nat)
    requires n > 0 && i < |shards| && j < |Chunk(shards[i], n)| && |Chunk(shards[i], n)[j]| != w
    ensures !Sized(AllChunks(shards, n), w)
  {
    var k := ChunkAmongAll(shards, n, i, j);
  }

  lemma AllChunksNext<T>(shards: seq<seq<T>>, n: nat, i: nat)
    requires n > 0 && i < |shards|
    ensures AllChunks(shards[..i + 1], n) == AllChunks(shards[..i], n) + Chunk(shards[i], n)
  {
    AllChunksSnoc(shards[..i], shards[i], n);
    assert shards[..i + 1] == shards[..i] + [shards[i]];
  }

  lemma ExtendPrefix<T>(before: seq<T>, s: seq<T>, j: nat)
    requires j < |s|
    ensures before + s[..j + 1] == before + s[..j] + [s[j]]
  {
  }

  lemma PartedNone<T>(a: nat, b: nat)
    ensures Sized<T>([], a + b + b) && Parted<T>([], a, b) == ([], [], [])
  {
  }

  /** The loop over shards. */
  method CollectQkv<T>(tpData: seq<seq<T>>, n: nat, a: nat, b: nat) returns (r: Option<(seq<T>, seq<T>, seq<T>)>)
    requires n > 0
    ensures var cs := AllChunks(tpData, n);
            r == if Sized(cs, a + b + b) then Some(Parted(cs, a, b)) else None
  {
    var q, k, v := [], [], [];
    PartedNone<T>(a, b);
    for i := 0 to |tpData|
      invariant Sized(AllChunks(tpData[..i], n), a + b + b)
      invariant (q, k, v) == Parted(AllChunks(tpData[..i], n), a, b)
    {
      var chunks := Chunk(tpData[i], n);
      AllChunksNext(tpData, n, i);
      var parts := CollectChunks(chunks, a, b, q, k, v, AllChunks(tpData[..i], n));
      if parts.None? {
        ghost var j: nat :| j < |chunks| && |chunks[j]| != a + b + b;
        MissizedChunk(tpData, n, a + b + b, i, j);
        return None;
      }
      q, k, v := parts.value.0, parts.value.1, parts.value.2;
    }
    assert tpData[..|tpData|] == tpData;
    r := Some((q, k, v));
  }

  /** The loop over the chunks of a shard. */
  method CollectChunks<T>(chunks: seq<seq<T>>, a: nat, b: nat, q0: seq<T>, k0: seq<T>, v0: seq<T>,
                         ghost before: seq<seq<T>>)
    returns (r: Option<(seq<T>, seq<T>, seq<T>)>)
    requires Sized(before, a + b + b) && (q0, k0, v0) == Parted(before, a, b)
    ensures r.None? ==> exists j: nat :: j < |chunks| && |chunks[j]| != a + b + b
    ensures r.Some? ==> Sized(before + chunks, a + b + b) && r.value == Parted(before + chunks, a, b)
  {
    var w := a + b + b;
    var q, k, v := q0, k0, v0;
    assert before + chunks[..0] == before;
    for j := 0 to |chunks|
      invariant Sized(before + chunks[..j], w)
      invariant (q, k, v) == Parted(before + chunks[..j], a, b)
    {
      var c := chunks[j];
      if |c| != w {
        return None;
      }
      PartedSnoc(before + chunks[..j], c, a, b);
      ExtendPrefix(before, chunks, j);
      q, k, v := q + c[0..a], k + c[a..a + b], v + c[a + b..w];
    }
    assert chunks[..|chunks|] == chunks;
    r := Some((q, k, v));
  }

  lemma AllChunksSnoc<T>(shards: seq<seq<T>>, s: seq<T>, n: nat)
    requires n > 0
    ensures AllChunks(shards + [s], n) == AllChunks(shards, n) + Chunk(s, n)
  {
    assert ChunkEach(shards + [s], n) == ChunkEach(shards, n) + [Chunk(s, n)];
    JoinSnoc(ChunkEach(shards, n), Chunk(s, n));
  }

  lemma {:induction false} ChunkAmongAll<T>(shards: seq<seq<T>>, n: nat, i: nat, j: nat) returns (k: nat)
    requires n > 0 && i < |shards| && j < |Chunk(shards[i], n)|
    ensures k < |AllChunks(shards, n)| && AllChunks(shards, n)[k] == Chunk(shards[i], n)[j]
  {
    var rest, last := shards[..|shards| - 1], shards[|shards| - 1];
    assert shards == rest + [last];
    AllChunksSnoc(rest, last, n);
    if i < |rest| {
      k := ChunkAmongAll(rest, n, i, j);
    } else {
      k := |AllChunks(rest, n)| + j;
    }
  }

  /** A shard of one row is the one that `chunk(2)` does not cut in two. */
  lemma TwoHalves<T>(s: seq<T>)
    ensures |Chunk(s, 2)| == 2 <==> |s| != 1
  {
    if |s| > 1 {
      var size := (|s| + 1) / 2;
      assert |Pieces(s[size..], size)| == 1;
    }
  }

  function Halves<T>(shards: seq<seq<T>>, h: nat): seq<seq<T>>
    requires h < 2 && forall i | 0 <= i < |shards| :: |Chunk(shards[i], 2)| == 2
  {
    seq(|shards|, i requires 0 <= i < |shards| => Chunk(shards[i], 2)[h])
  }

  /** The gate of a shard is its first half, the longer one, and the up its second. */
  lemma HalfIs<T>(s: seq<T>, gate: nat)
    requires |s| != 1 && gate == (|s| + 1) / 2
    ensures Chunk(s, 2) == [s[..gate], s[gate..]]
  {
    if s != [] {
      assert Pieces(s[gate..], gate) == [s[gate..]];
    }
  }

  lemma HalvesNext<T>(shards: seq<seq<T>>, i: nat, h: nat)
    requires h < 2 && i < |shards| && forall j | 0 <= j <= i :: |Chunk(shards[j], 2)| == 2
    ensures Join(Halves(shards[..i + 1], h)) == Join(Halves(shards[..i], h)) + Chunk(shards[i], 2)[h]
  {
    assert Halves(shards[..i + 1], h) == Halves(shards[..i], h) + [Chunk(shards[i], 2)[h]];
    JoinSnoc(Halves(shards[..i], h), Chunk(shards[i], 2)[h]);
  }

  /** Gate and up of each shard, collected over the shards; None where a shard has one row. */
  method MergeGateUp<T>(tpData: seq<seq<T>>) returns (r: Option<(seq<T>, seq<T>)>)
    ensures r.None? <==> exists i :: 0 <= i < |tpData| && |tpData[i]| == 1
    ensures r.Some? ==> && (forall i | 0 <= i < |tpData| :: |Chunk(tpData[i], 2)| == 2)
                        && r.value == (Join(Halves(tpData, 0)), Join(Halves(tpData, 1)))
  {
    var gate, up := [], [];
    for i := 0 to |tpData|
      invariant forall j | 0 <= j < i :: |Chunk(tpData[j], 2)| == 2 && |tpData[j]| != 1
      invariant gate == Join(Halves(tpData[..i], 0)) && up == Join(Halves(tpData[..i], 1))
    {
      var halves := Chunk(tpData[i], 2);
      TwoHalves(tpData[i]);
      if |halves| != 2 {
        return None;
      }
      HalvesNext(tpData, i, 0);
      HalvesNext(tpData, i, 1);
      gate, up := gate + halves[0], up + halves[1];
    }
    assert tpData[..|tpData|] == tpData;
    r := Some((gate, up));
  }

  /** Equal parts, taken n at a time. */
  function Batches<T>(parts: seq<seq<T>>, n: nat): seq<seq<T>>
    requires n > 0
    decreases |parts|
  {
    if |parts| <= n then [Join(parts)] else [Join(parts[..n])] + Batches(parts[n..], n)
  }

  lemma BatchesStep<T>(parts: seq<seq<T>>, n: nat)
    requires 0 < n < |parts|
    ensures Batches(parts, n) == [Join(parts[..n])] + Batches(parts[n..], n)
  {
  }

  /** Cutting joined equal parts into pieces of n parts gives those pieces. */
  lemma {:induction false} PiecesOfJoin<T>(parts: seq<seq<T>>, n: nat, w: nat)
    requires n > 0 && w > 0 && Sized(parts, w)
    ensures n * w > 0 && Pieces(Join(parts), n * w) == Batches(parts, n)
    decreases |parts|
  {
    var s := Join(parts);
    JoinLength(parts, w);
    Products(n, |parts|, w);
    if |parts| > n {
      var head, tail := parts[..n], parts[n..];
      assert parts == head + tail;
      JoinConcat(head, tail);
      JoinLength(head, w);
      assert s[..n * w] == Join(head) && s[n * w..] == Join(tail);
      PiecesOfJoin(tail, n, w);
    }
  }

  lemma Products(n: nat, m: nat, w: nat)
    requires n > 0 && w > 0
    ensures n * w > 0
    ensures m <= n <==> m * w <= n * w
  {
    if m <= n {
      assert n * w == m * w + (n - m) * w;
    } else {
      assert m * w == n * w + (m - n) * w;
      assert (m - n) * w >= w by { MulAtLeast(m - n, w); }
    }
    MulAtLeast(n, w);
  }

  /** `chunk(t)` of t * n joined equal parts gives t shards of n parts. */
  lemma ChunkOfJoin<T>(parts: seq<seq<T>>, t: nat, n: nat, w: nat)
    requires t > 0 && n > 0 && w > 0 && |parts| == t * n && Sized(parts, w)
    ensures Chunk(Join(parts), t) == Batches(parts, n)
  {
    JoinLength(parts, w);
    assert t * n * w == n * w * t;
    DivExact(n * w, t);
    PiecesOfJoin(parts, n, w);
  }

  lemma {:induction false} BatchesCount<T>(parts: seq<seq<T>>, t: nat, n: nat)
    requires t > 0 && n > 0 && |parts| == t * n
    ensures |Batches(parts, n)| == t
    decreases t
  {
    if t > 1 {
      assert t * n == n + (t - 1) * n;
      MulAtLeast(t - 1, n);
      BatchesCount(parts[n..], t - 1, n);
    }
  }

  lemma {:induction false} BatchSize<T>(parts: seq<seq<T>>, t: nat, n: nat, w: nat)
    requires t > 0 && n > 0 && |parts| == t * n && Sized(parts, w)
    ensures |Batches(parts, n)[0]| == n * w
  {
    if t == 1 {
      JoinLength(parts, w);
    } else {
      MulAtLeast(t, n);
      JoinLength(parts[..n], w);
    }
  }

  lemma SinglesChunk<T>(parts: seq<seq<T>>, w: nat)
    requires |parts| > 0 && w > 0 && Sized(parts, w)
    ensures Chunk(Join(parts), |parts|) == parts
  {
    assert |parts| * 1 == |parts|;
    ChunkOfJoin(parts, |parts|, 1, w);
    BatchesOfOne(parts);
  }

  lemma {:induction false} BatchesOfOne<T>(parts: seq<seq<T>>)
    requires |parts| > 0
    ensures Batches(parts, 1) == parts
    decreases |parts|
  {
    assert parts[..1] == [parts[0]];
    JoinOne(parts[0]);
    if |parts| > 1 {
      BatchesOfOne(parts[1..]);
    } else {
      assert parts == [parts[0]];
    }
  }

  lemma AllChunksCons<T>(s: seq<T>, shards: seq<seq<T>>, n: nat)
    requires n > 0
    ensures AllChunks([s] + shards, n) == Chunk(s, n) + AllChunks(shards, n)
  {
    assert ChunkEach([s] + shards, n) == [Chunk(s, n)] + ChunkEach(shards, n);
    JoinConcat([Chunk(s, n)], ChunkEach(shards, n));
    JoinOne(Chunk(s, n));
  }

  /** Cutting every shard back into its groups gives the groups, in order. */
  lemma {:induction false} ShardsRegroup<T>(parts: seq<seq<T>>, t: nat, n: nat, w: nat)
    requires t > 0 && n > 0 && w > 0 && |parts| == t * n && Sized(parts, w)
    ensures AllChunks(Batches(parts, n), n) == parts
    decreases t
  {
    if t == 1 {
      SinglesChunk(parts, w);
      AllChunksSnoc([], Join(parts), n);
      assert [] + [Join(parts)] == [Join(parts)] == Batches(parts, n);
    } else {
      Peel(t, n);
      MulAtLeast(t - 1, n);
      var head, tail := parts[..n], parts[n..];
      SinglesChunk(head, w);
      ShardsRegroup(tail, t - 1, n, w);
      AllChunksCons(Join(head), Batches(tail, n), n);
      BatchesStep(parts, n);
      TakeDrop(parts, n);
    }
  }

  // ----- the round trips

  lemma {:induction false} SlicesCons<T>(p: seq<T>, parts: seq<seq<T>>, w: nat, lo: nat, hi: nat)
    requires lo <= hi <= w == |p| && Sized(parts, w)
    ensures Slices([p] + parts, w, lo, hi) == p[lo..hi] + Slices(parts, w, lo, hi)
  {
    if parts == [] {
      assert [p] + parts == [p];
      assert [p][..0] == [];
    } else {
      var i := |parts| - 1;
      SlicesCons(p, parts[..i], w, lo, hi);
      assert ([p] + parts)[..|parts|] == [p] + parts[..i];
    }
  }

  lemma GroupParts<T>(q: seq<T>, k: seq<T>, v: seq<T>, a: nat, b: nat)
    requires |q| >= a && |k| >= b && |v| >= b
    ensures var r := Group(q, k, v, a, b);
            |r| == a + b + b && r[0..a] == q[..a] && r[a..a + b] == k[..b] && r[a + b..a + b + b] == v[..b]
  {
  }

  lemma Peel(g: nat, a: nat)
    requires g > 0
    ensures g * a == a + (g - 1) * a
  {
  }

  lemma TakeDrop<T>(s: seq<T>, n: nat)
    requires n <= |s|
    ensures s[..n] + s[n..] == s
  {
  }

  /** The slices of the groups put q, k and v together again. */
  lemma {:induction false} GroupsUndone<T>(q: seq<T>, k: seq<T>, v: seq<T>, g: nat, a: nat, b: nat)
    requires |q| == g * a && |k| == g * b && |v| == g * b
    ensures Parted(Groups(q, k, v, g, a, b), a, b) == (q, k, v)
    decreases g
  {
    if g > 0 {
      Peel(g, a);
      Peel(g, b);
      var tail := Groups(q[a..], k[b..], v[b..], g - 1, a, b);
      GroupsUndone(q[a..], k[b..], v[b..], g - 1, a, b);
      PartedCons(q, k, v, tail, a, b);
      TakeDrop(q, a);
      TakeDrop(k, b);
      TakeDrop(v, b);
    }
  }

  lemma PartedCons<T>(q: seq<T>, k: seq<T>, v: seq<T>, tail: seq<seq<T>>, a: nat, b: nat)
    requires |q| >= a && |k| >= b && |v| >= b && Sized(tail, a + b + b)
    requires Parted(tail, a, b) == (q[a..], k[b..], v[b..])
    ensures Sized([Group(q, k, v, a, b)] + tail, a + b + b)
    ensures Parted([Group(q, k, v, a, b)] + tail, a, b) == (q[..a] + q[a..], k[..b] + k[b..], v[..b] + v[b..])
  {
    GroupParts(q, k, v, a, b);
    SlicesOfGroups(Group(q, k, v, a, b), tail, a, b);
  }

  lemma SlicesOfGroups<T>(head: seq<T>, tail: seq<seq<T>>, a: nat, b: nat)
    requires |head| == a + b + b && Sized(tail, a + b + b)
    ensures var gs, w := [head] + tail, a + b + b;
            && Slices(gs, w, 0, a) == head[0..a] + Slices(tail, w, 0, a)
            && Slices(gs, w, a, a + b) == head[a..a + b] + Slices(tail, w, a, a + b)
            && Slices(gs, w, a + b, w) == head[a + b..w] + Slices(tail, w, a + b, w)
  {
    var w := a + b + b;
    SlicesCons(head, tail, w, 0, a);
    SlicesCons(head, tail, w, a, a + b);
    SlicesCons(head, tail, w, a + b, w);
  }

  function RowsOf<T>(s: seq<T>, at: nat, n: nat): seq<T>
    requires at + n <= |s|
  {
    s[at..at + n]
  }

  lemma Fits(g: nat, a: nat, i: nat)
    requires i < g
    ensures i * a + a <= g * a
  {
    assert g * a == i * a + (g - i) * a;
    MulAtLeast(g - i, a);
  }

  /** Group i of the fused weight holds the i-th a rows of q, then the i-th b rows of k and of v. */
  lemma {:induction false} GroupAt<T>(q: seq<T>, k: seq<T>, v: seq<T>, g: nat, a: nat, b: nat, i: nat)
    requires |q| == g * a && |k| == g * b && |v| == g * b && i < g
    ensures i * a + a <= |q| && i * b + b <= |k|
    ensures Groups(q, k, v, g, a, b)[i] == RowsOf(q, i * a, a) + RowsOf(k, i * b, b) + RowsOf(v, i * b, b)
    decreases g
  {
    Fits(g, a, i);
    Fits(g, b, i);
    Peel(g, a);
    Peel(g, b);
    if i > 0 {
      GroupAt(q[a..], k[b..], v[b..], g - 1, a, b, i - 1);
      RowsShift(q, a, i);
      RowsShift(k, b, i);
      RowsShift(v, b, i);
    }
  }

  lemma RowsShift<T>(s: seq<T>, a: nat, i: nat)
    requires i > 0 && i * a + a <= |s|
    ensures a <= |s| && (i - 1) * a + a <= |s[a..]| && RowsOf(s[a..], (i - 1) * a, a) == RowsOf(s, i * a, a)
  {
    Peel(i, a);
    DropSlice(s, a, (i - 1) * a, a);
  }

  /** Interleaving q, k and v by key-value group, cutting the result into t shards with t dividing the
      number of groups, and merging gives back q, k and v; t = 1 is the merge on one rank. */
  lemma QkvRoundTrip<T>(q: seq<T>, k: seq<T>, v: seq<T>, groups: nat, qPerKv: nat, headDim: nat, t: nat)
    requires groups > 0 && qPerKv > 0 && headDim > 0 && t > 0 && groups % t == 0
    requires |q| == groups * (qPerKv * headDim) && |k| == groups * headDim && |v| == groups * headDim
    ensures var fused := Interleave(q, k, v, groups, qPerKv * headDim, headDim);
            Merged(Chunk(fused, t), qPerKv * groups, groups) == Some((q, k, v))
  {
    var a := qPerKv * headDim;
    ShardShapes(Groups(q, k, v, groups, a, headDim), groups, t, qPerKv, headDim);
    GroupsUndone(q, k, v, groups, a, headDim);
  }

  /** The sizes the merge computes from the first shard are those of the groups. */
  lemma ShardShapes<T>(gs: seq<seq<T>>, groups: nat, t: nat, qPerKv: nat, headDim: nat)
    requires groups > 0 && qPerKv > 0 && headDim > 0 && t > 0 && groups % t == 0 && |gs| == groups
    requires Sized(gs, qPerKv * headDim + headDim + headDim)
    ensures var shards := Chunk(Join(gs), t);
            Merged(shards, qPerKv * groups, groups) == Some(Parted(gs, qPerKv * headDim, headDim))
  {
    var n, w := groups / t, qPerKv * headDim + headDim + headDim;
    Divides(groups, t);
    ChunkOfJoin(gs, t, n, w);
    BatchesCount(gs, t, n);
    BatchSize(gs, t, n, w);
    ShardsRegroup(gs, t, n, w);
    MergeSizes(n, qPerKv, headDim);
    DivExact(qPerKv, groups);
  }

  lemma MergeSizes(n: nat, nq: nat, d: nat)
    requires n > 0
    ensures var rows := n * (nq * d + d + d);
            rows % (nq + 2) == 0 && Div(rows / (nq + 2) * nq, n) == nq * d && Div(rows / (nq + 2), n) == d
  {
    assert n * (nq * d + d + d) == n * d * (nq + 2);
    DivExact(n * d, nq + 2);
    assert n * d * nq == nq * d * n;
    DivExact(nq * d, n);
    assert n * d == d * n;
    DivExact(d, n);
  }

  /** Shard i of a stacked weight: its h gate rows over its h up rows. */
  function GateUpShards<T>(gate: seq<T>, up: seq<T>, t: nat, h: nat): seq<seq<T>>
    requires |gate| == t * h == |up|
    decreases t
  {
    if t == 0 then []
    else
      assert t * h == h + (t - 1) * h;
      [gate[..h] + up[..h]] + GateUpShards(gate[h..], up[h..], t - 1, h)
  }

  /** Shard i has the i-th h rows of gate above the i-th h rows of up. */
  lemma {:induction false} GateUpShardAt<T>(gate: seq<T>, up: seq<T>, t: nat, h: nat, i: nat, at: nat)
    requires |gate| == t * h == |up| && i < t && at == i * h
    ensures |GateUpShards(gate, up, t, h)| == t && at + h <= |gate|
    ensures GateUpShards(gate, up, t, h)[i] == gate[at..at + h] + up[at..at + h]
    decreases t
  {
    Peel(t, h);
    if i > 0 {
      Peel(i, h);
      GateUpShardAt(gate[h..], up[h..], t - 1, h, i - 1, at - h);
      DropSlice(gate, h, at - h, h);
      DropSlice(up, h, at - h, h);
    } else {
      GateUpCount(gate, up, t, h);
      MulAtLeast(t, h);
    }
  }

  lemma {:induction false} GateUpCount<T>(gate: seq<T>, up: seq<T>, t: nat, h: nat)
    requires |gate| == t * h == |up|
    ensures |GateUpShards(gate, up, t, h)| == t
    decreases t
  {
    if t > 0 {
      Peel(t, h);
      GateUpCount(gate[h..], up[h..], t - 1, h);
    }
  }

  lemma ChunkPair<T>(g: seq<T>, u: seq<T>, h: nat)
    requires |g| == h == |u| && h > 0
    ensures Chunk(g + u, 2) == [g, u]
  {
    var s := g + u;
    assert (2 * h + 2 - 1) / 2 == h && s[..h] == g && s[h..] == u;
    assert Pieces(s, h) == [g] + Pieces(u, h);
    assert Pieces(u, h) == [u];
  }

  lemma HalvesCons<T>(s: seq<T>, rest: seq<seq<T>>, k: nat)
    requires k < 2 && |Chunk(s, 2)| == 2 && forall i | 0 <= i < |rest| :: |Chunk(rest[i], 2)| == 2
    ensures forall i | 0 <= i < |rest| + 1 :: |Chunk(([s] + rest)[i], 2)| == 2
    ensures Join(Halves([s] + rest, k)) == Chunk(s, 2)[k] + Join(Halves(rest, k))
  {
    assert Halves([s] + rest, k) == [Chunk(s, 2)[k]] + Halves(rest, k);
  }

  /** Every shard of gate and up has two halves. */
  predicate Halved<T>(shards: seq<seq<T>>) {
    forall i | 0 <= i < |shards| :: |shards[i]| != 1 && |Chunk(shards[i], 2)| == 2
  }

  lemma {:induction false} GateUpUndone<T>(gate: seq<T>, up: seq<T>, t: nat, h: nat)
    requires |gate| == t * h == |up| && h > 0
    ensures var shards := GateUpShards(gate, up, t, h);
            Halved(shards) && Join(Halves(shards, 0)) == gate && Join(Halves(shards, 1)) == up
    decreases t
  {
    if t > 0 {
      assert t * h == h + (t - 1) * h;
      GateUpUndone(gate[h..], up[h..], t - 1, h);
      GateUpCons(gate[..h], up[..h], gate[h..], up[h..], GateUpShards(gate[h..], up[h..], t - 1, h));
    }
  }

  lemma GateUpCons<T>(g: seq<T>, u: seq<T>, gate: seq<T>, up: seq<T>, rest: seq<seq<T>>)
    requires |g| == |u| > 0 && Halved(rest) && Join(Halves(rest, 0)) == gate && Join(Halves(rest, 1)) == up
    ensures var shards := [g + u] + rest;
            Halved(shards) && Join(Halves(shards, 0)) == g + gate && Join(Halves(shards, 1)) == u + up
  {
    ChunkPair(g, u, |g|);
    HalvesCons(g + u, rest, 0);
    HalvesCons(g + u, rest, 1);
  }

  /** Stacking gate and up on every shard and merging gives back gate and up. */
  method GateUpRoundTrip<T>(gate: seq<T>, up: seq<T>, t: nat, h: nat) returns (r: Option<(seq<T>, seq<T>)>)
    requires |gate| == t * h == |up| && h > 0
    ensures r == Some((gate, up))
  {
    GateUpUndone(gate, up, t, h);
    r := MergeGateUp(GateUpShards(gate, up, t, h));
  }
}
