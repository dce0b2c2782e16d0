/** The output files of a distributed merge: each rank splits the names of its dict over the files of
    its layers, and numbers the files from its first layer on. */
module OutputFiles {
  import opened Wrappers
  import opened Arithmetic
  import opened Sequences
  import opened Splitting
  import opened LayerNumbering
  import opened StageTiling

  function SavesPerLayer(layers: nat): nat {
    if layers < 30 then 1 else 2
  }

  /** The numbers of the files that rank writes. */
  predicate WritesFile(shards: seq<nat>, perLayer: nat, rank: nat, f: nat) {
    rank < |shards| && Start(shards, rank) * perLayer < f <= Start(shards, rank) * perLayer + shards[rank] * perLayer
  }

  /** Every key of the rank is in exactly one of its files, the one the index names. */
  ghost predicate SavedOnce(keys: seq<Key>, files: map<nat, seq<Key>>, index: map<Key, nat>) {
    && (forall key :: key in index <==> key in keys)
    && (forall key | key in index :: index[key] in files)
    && (forall f, key | f in files && key in index :: key in files[f] <==> index[key] == f)
    && (forall f, key | f in files && key in files[f] :: key in keys)
  }

  ghost predicate Disjoint(pieces: seq<seq<Key>>) {
    forall i, j, key | 0 <= i < j < |pieces| && key in pieces[i] :: key !in pieces[j]
  }

  ghost predicate InSome(pieces: seq<seq<Key>>, key: Key) {
    exists i :: 0 <= i < |pieces| && key in pieces[i]
  }

  /** File base + i + 1 holds piece i, and the index sends its keys there. */
  ghost predicate Written(pieces: seq<seq<Key>>, base: nat, files: map<nat, seq<Key>>, index: map<Key, nat>) {
    && (forall f: nat :: f in files <==> base < f <= base + |pieces|)
    && (forall i | 0 <= i < |pieces| :: files[base + i + 1] == pieces[i])
    && (forall key :: key in index <==> InSome(pieces, key))
    && forall i, key | 0 <= i < |pieces| && key in pieces[i] :: key in index && index[key] == base + i + 1
  }

  method IndexKeys(index: map<Key, nat>, chunk: seq<Key>, f: nat) returns (r: map<Key, nat>)
    ensures forall key :: key in r <==> key in index || key in chunk
    ensures forall key | key in r :: r[key] == if key in chunk then f else index[key]
  {
    r := index;
    for k := 0 to |chunk|
      invariant forall key :: key in r <==> key in index || key in chunk[..k]
      invariant forall key | key in r :: r[key] == if key in chunk[..k] then f else index[key]
    {
      r := r[chunk[k] := f];
    }
  }

  lemma InSomeNext(pieces: seq<seq<Key>>, i: nat, key: Key)
    requires i < |pieces|
    ensures InSome(pieces[..i + 1], key) <==> InSome(pieces[..i], key) || key in pieces[i]
  {
    if j: nat :| j < i && key in pieces[..i][j] {
      assert key in pieces[..i + 1][j];
    }
    if key in pieces[i] {
      assert key in pieces[..i + 1][i];
    }
  }

  lemma WrittenNext(pieces: seq<seq<Key>>, i: nat, base: nat, files: map<nat, seq<Key>>, index: map<Key, nat>,
                    index': map<Key, nat>)
    requires Disjoint(pieces) && i < |pieces| && Written(pieces[..i], base, files, index)
    requires forall key :: key in index' <==> key in index || key in pieces[i]
    requires forall key | key in index' :: index'[key] == if key in pieces[i] then base + i + 1 else index[key]
    ensures Written(pieces[..i + 1], base, files[base + i + 1 := pieces[i]], index')
  {
    forall key ensures key in index' <==> InSome(pieces[..i + 1], key) {
      InSomeNext(pieces, i, key);
    }
  }

  method WriteFiles(pieces: seq<seq<Key>>, base: nat) returns (files: map<nat, seq<Key>>, index: map<Key, nat>)
    requires Disjoint(pieces)
    ensures Written(pieces, base, files, index)
  {
    files, index := map[], map[];
    for i := 0 to |pieces|
      invariant Written(pieces[..i], base, files, index)
    {
      var chunk, saveIdx := pieces[i], base + i;
      ghost var filesBefore, indexBefore := files, index;
      files := files[saveIdx + 1 := chunk];
      index := IndexKeys(index, chunk, saveIdx + 1);
      WrittenNext(pieces, i, base, filesBefore, indexBefore, index);
    }
    assert pieces[..|pieces|] == pieces;
  }

  lemma ItemOfPiece<T>(s: seq<T>, n: nat, i: nat, x: T) returns (at: nat)
    requires i < n && x in Piece(s, n, i)
    ensures at < |s| && s[at] == x && Cut(|s|, n, i) <= at < Cut(|s|, n, i + 1)
  {
    CutFits(|s|, n, i);
    var k: nat :| k < |Piece(s, n, i)| && Piece(s, n, i)[k] == x;
    at := Cut(|s|, n, i) + k;
  }

  lemma InSlice<T>(s: seq<T>, lo: nat, hi: nat, at: nat)
    requires lo <= at < hi <= |s|
    ensures s[at] in s[lo..hi]
  {
    assert s[lo..hi][at - lo] == s[at];
  }

  lemma PieceOfItem<T>(s: seq<T>, n: nat, at: nat) returns (i: nat)
    requires n > 0 && at < |s|
    ensures i < n && s[at] in Piece(s, n, i)
  {
    i := PieceOf(|s|, n, at);
    CutFits(|s|, n, i);
    InSlice(s, Cut(|s|, n, i), Cut(|s|, n, i + 1), at);
  }

  /** The pieces of distinct keys are disjoint, and together hold every key. */
  lemma PiecesPartition(keys: seq<Key>, n: nat, pieces: seq<seq<Key>>)
    requires n > 0 && |pieces| == n && forall i | 0 <= i < n :: pieces[i] == Piece(keys, n, i)
    requires forall i, j | 0 <= i < j < |keys| :: keys[i] != keys[j]
    ensures Disjoint(pieces)
    ensures forall key :: InSome(pieces, key) <==> key in keys
  {
    forall i, j, key | 0 <= i < j < |pieces| && key in pieces[i] && key in pieces[j] ensures false {
      var at := ItemOfPiece(keys, n, i, key);
      var at' := ItemOfPiece(keys, n, j, key);
      PieceUnique(|keys|, n, at, i, j);
    }
    forall key | key in keys ensures InSome(pieces, key) {
      var at: nat :| at < |keys| && keys[at] == key;
      var i := PieceOfItem(keys, n, at);
      assert key in pieces[i];
    }
    forall key | InSome(pieces, key) ensures key in keys {
      var i: nat :| i < |pieces| && key in pieces[i];
      var at := ItemOfPiece(keys, n, i, key);
    }
  }

  /** The files from base + 1 on hold the keys in order, evenly: the first ones one key more. */
  ghost predicate SplitOver(keys: seq<Key>, base: nat, files: map<nat, seq<Key>>) {
    exists pieces: seq<seq<Key>> :: Consecutive(keys, base, files, pieces)
  }

  ghost predicate Consecutive(keys: seq<Key>, base: nat, files: map<nat, seq<Key>>, pieces: seq<seq<Key>>) {
    && pieces != [] && Join(pieces) == keys
    && (forall f: nat :: f in files <==> base < f <= base + |pieces|)
    && forall i | 0 <= i < |pieces| ::
         && files[base + i + 1] == pieces[i]
         && |pieces[i]| == |keys| / |pieces| + if i < |keys| % |pieces| then 1 else 0
  }

  lemma AsSplit(keys: seq<Key>, pieces: seq<seq<Key>>, base: nat, files: map<nat, seq<Key>>, index: map<Key, nat>)
    requires pieces != [] && Join(pieces) == keys && Written(pieces, base, files, index)
    requires forall i | 0 <= i < |pieces| ::
               |pieces[i]| == |keys| / |pieces| + if i < |keys| % |pieces| then 1 else 0
    ensures SplitOver(keys, base, files)
  {
    assert Consecutive(keys, base, files, pieces);
  }

  /** Writes the files of one rank, and the index; None where the rank has no layers to split over. */
  method SaveModel(keys: seq<Key>, shards: seq<nat>, rank: nat, layers: nat)
    returns (r: Option<(map<nat, seq<Key>>, map<Key, nat>)>)
    requires rank < |shards|
    requires forall i, j | 0 <= i < j < |keys| :: keys[i] != keys[j]
    ensures r.None? <==> shards[rank] == 0
    ensures r.Some? ==>
              && SavedOnce(keys, r.value.0, r.value.1)
              && forall f: nat :: f in r.value.0 <==> WritesFile(shards, SavesPerLayer(layers), rank, f)
    ensures r.Some? && layers < 30 ==>
              forall f: nat :: f in r.value.0 <==> Start(shards, rank) < f <= Start(shards, rank) + shards[rank]
    ensures r.Some? && layers >= 30 ==>
              forall f: nat ::
                f in r.value.0 <==> 2 * Start(shards, rank) < f <= 2 * (Start(shards, rank) + shards[rank])
    ensures r.Some? ==> SplitOver(keys, Start(shards, rank) * SavesPerLayer(layers), r.value.0)
  {
    var savesPerLayer := SavesPerLayer(layers);
    var layerThisRank := shards[rank];
    var layerStart := LayerStart(shards, rank);
    var n := layerThisRank * savesPerLayer;
    var keysChunk := ArraySplit(keys, n);
    if keysChunk.None? {
      return None;
    }
    PiecesPartition(keys, n, keysChunk.value);
    var files, index := WriteFiles(keysChunk.value, layerStart * savesPerLayer);
    OnceEach(keys, keysChunk.value, layerStart * savesPerLayer, files, index);
    AsSplit(keys, keysChunk.value, layerStart * savesPerLayer, files, index);
    r := Some((files, index));
  }

  lemma OnceEach(keys: seq<Key>, pieces: seq<seq<Key>>, base: nat, files: map<nat, seq<Key>>, index: map<Key, nat>)
    requires Written(pieces, base, files, index) && forall key :: InSome(pieces, key) <==> key in keys
    ensures SavedOnce(keys, files, index)
  {
    forall f, key | f in files && key in files[f] ensures key in keys && index[key] == f {
      var i := f - base - 1;
      assert files[base + i + 1] == pieces[i];
      assert InSome(pieces, key);
    }
    forall key | key in index ensures index[key] in files && key in files[index[key]] {
      assert InSome(pieces, key);
    }
  }

  /** A rank writes the files of its own layers. */
  lemma FileOfLayer(shards: seq<nat>, perLayer: nat, r: nat, f: nat)
    requires perLayer > 0
    ensures WritesFile(shards, perLayer, r, f) <==> f > 0 && Owns(shards, r, (f - 1) / perLayer)
  {
    if r < |shards| && f > 0 {
      var a, n := Start(shards, r), shards[r];
      DivAtLeast(f - 1, perLayer, a);
      DivAtLeast(f - 1, perLayer, a + n);
      assert (a + n) * perLayer == a * perLayer + n * perLayer;
    }
  }

  /** Over all ranks the file numbers tile 1 to the total: each is written by exactly one rank. */
  lemma FilesTile(shards: seq<nat>, perLayer: nat, f: nat)
    requires perLayer > 0
    ensures 1 <= f <= Sum(shards) * perLayer <==> exists r: nat :: WritesFile(shards, perLayer, r, f)
    ensures forall r: nat, q: nat | WritesFile(shards, perLayer, r, f) && WritesFile(shards, perLayer, q, f) :: r == q
  {
    if f > 0 {
      var g := (f - 1) / perLayer;
      DivAtLeast(f - 1, perLayer, Sum(shards));
      forall r: nat ensures WritesFile(shards, perLayer, r, f) <==> Owns(shards, r, g) {
        FileOfLayer(shards, perLayer, r, f);
      }
      if g < Sum(shards) {
        var r := Owner(shards, g);
      } else {
        forall r: nat ensures !Owns(shards, r, g) {
          OwnedBelowSum(shards, r, g);
        }
      }
    }
  }
}
