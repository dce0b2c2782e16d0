/** The files and the index of a distributed merge over all pipeline ranks: when every key of every rank is in
    exactly one file, and the index gathered from the ranks names it. */
module MergedFiles {
  import opened Wrappers
  import opened Sequences
  import opened LayerNumbering
  import opened StageTiling
  import opened OutputFiles

  /** What one rank writes: its files and its part of the index. */
  datatype Saved = Saved(files: map<nat, seq<Key>>, index: map<Key, nat>)

  /** The dict of a rank: its one chunk, numbered from its own first layer on. */
  function DictOf<T>(chunks: seq<Chunk<T>>, shards: seq<nat>, r: nat): map<Key, T>
    requires r < |shards| == |chunks|
  {
    AsDict(Renumbered(Start(shards, r), [chunks[r]]))
  }

  /** Rank r has written its files and index for exactly the keys of its dict. */
  ghost predicate SavedBy<T>(chunks: seq<Chunk<T>>, shards: seq<nat>, perLayer: nat, r: nat, save: Saved)
    requires r < |shards| == |chunks|
  {
    && (exists keys :: SavedOnce(keys, save.files, save.index)
                       && forall key :: key in keys <==> key in DictOf(chunks, shards, r))
    && forall f: nat :: f in save.files <==> WritesFile(shards, perLayer, r, f)
  }

  ghost predicate AllSaved<T>(chunks: seq<Chunk<T>>, shards: seq<nat>, perLayer: nat, saves: seq<Saved>) {
    && |saves| == |shards| == |chunks| && HasSizes(chunks, shards) && perLayer > 0
    && forall r | 0 <= r < |shards| :: SavedBy(chunks, shards, perLayer, r, saves[r])
  }

  /** The key is in file f, written by rank r. */
  predicate InFile(saves: seq<Saved>, key: Key, r: nat, f: nat) {
    r < |saves| && f in saves[r].files && key in saves[r].files[f]
  }

  /** The indexes of all ranks merged in rank order: a later rank overwrites. */
  function MergedIndex(saves: seq<Saved>): map<Key, nat> {
    if saves == [] then map[] else MergedIndex(saves[..|saves| - 1]) + saves[|saves| - 1].index
  }

  /** Every key of every rank is in one file only, of one rank, and the merged index names that file. */
  ghost predicate EachKeyOnce(saves: seq<Saved>) {
    forall key, r: nat, f: nat | InFile(saves, key, r, f) ::
      && (forall q: nat, g: nat | InFile(saves, key, q, g) :: q == r && g == f)
      && key in MergedIndex(saves) && MergedIndex(saves)[key] == f
  }

  ghost predicate HasKey<T>(chunk: Chunk<T>, key: Key) {
    exists i :: 0 <= i < |chunk| && chunk[i].key == key
  }

  // ----- one rank

  /** A rank's files hold the keys of its dict, each in the file that its index names. */
  lemma FilesOfRank<T>(chunks: seq<Chunk<T>>, shards: seq<nat>, perLayer: nat, saves: seq<Saved>, key: Key, r: nat)
    requires AllSaved(chunks, shards, perLayer, saves) && r < |shards|
    ensures key in DictOf(chunks, shards, r) <==> key in saves[r].index
    ensures key in saves[r].index ==> InFile(saves, key, r, saves[r].index[key])
    ensures forall f: nat | InFile(saves, key, r, f) :: key in saves[r].index && saves[r].index[key] == f
  {
    assert SavedBy(chunks, shards, perLayer, r, saves[r]);
    var keys :| SavedOnce(keys, saves[r].files, saves[r].index)
                && forall key :: key in keys <==> key in DictOf(chunks, shards, r);
  }

  /** A name outside of the layers is in a rank's dict exactly when it is in its chunk. */
  lemma PlainInDict<T>(chunks: seq<Chunk<T>>, shards: seq<nat>, r: nat, key: Key)
    requires r < |shards| == |chunks| && key.Plain?
    ensures key in DictOf(chunks, shards, r) <==> HasKey(chunks[r], key)
  {
    var one := [chunks[r]];
    var entries := Renumbered(Start(shards, r), one);
    DictKeys(entries);
    if key in DictOf(chunks, shards, r) {
      var k: nat :| k < |entries| && entries[k].key == key;
      var c, i := Source(Start(shards, r), one, k);
      assert chunks[r][i].key == key;
    }
    if HasKey(chunks[r], key) {
      var i: nat :| i < |chunks[r]| && chunks[r][i].key == key;
      var k := Place(Start(shards, r), one, 0, i);
      assert entries[k].key == key;
    }
  }

  // ----- all ranks

  lemma PlainAbsent<T>(chunks: seq<Chunk<T>>, key: Key, r: nat, q: nat)
    requires PlainOnce(chunks) && key.Plain? && r < |chunks| && q < |chunks| && r != q && HasKey(chunks[r], key)
    ensures !HasKey(chunks[q], key)
  {
    assert if r < q then NoSharedPlain(chunks[r], chunks[q]) else NoSharedPlain(chunks[q], chunks[r]);
  }

  /** With plain names apart, no key is in the dicts of two ranks. */
  lemma KeyOfOneRank<T>(chunks: seq<Chunk<T>>, shards: seq<nat>, key: Key, r: nat, q: nat)
    requires HasSizes(chunks, shards) && PlainOnce(chunks) && r < |shards| && q < |shards|
    requires key in DictOf(chunks, shards, r) && key in DictOf(chunks, shards, q)
    ensures r == q
  {
    match key
    case InLayer(no, kind) =>
      assert InDictOf(chunks, shards, r, no) && InDictOf(chunks, shards, q, no);
      RanksTile(chunks, shards, no);
    case Plain(kind) =>
      PlainInDict(chunks, shards, r, key);
      PlainInDict(chunks, shards, q, key);
      if r != q {
        PlainAbsent(chunks, key, r, q);
      }
  }

  lemma {:induction false} MergedIndexOf(saves: seq<Saved>, key: Key, r: nat)
    requires r < |saves| && key in saves[r].index && forall q | 0 <= q < |saves| && key in saves[q].index :: q == r
    ensures key in MergedIndex(saves) && MergedIndex(saves)[key] == saves[r].index[key]
  {
    var n := |saves| - 1;
    if r < n {
      assert forall q | 0 <= q < n :: saves[..n][q] == saves[q];
      MergedIndexOf(saves[..n], key, r);
    }
  }

  lemma PlainOnceSavesOnce<T>(chunks: seq<Chunk<T>>, shards: seq<nat>, perLayer: nat, saves: seq<Saved>)
    requires AllSaved(chunks, shards, perLayer, saves) && PlainOnce(chunks)
    ensures EachKeyOnce(saves)
  {
    forall key, r: nat, f: nat | InFile(saves, key, r, f)
      ensures forall q: nat, g: nat | InFile(saves, key, q, g) :: q == r && g == f
      ensures key in MergedIndex(saves) && MergedIndex(saves)[key] == f
    {
      FilesOfRank(chunks, shards, perLayer, saves, key, r);
      forall q: nat | q < |saves| && key in saves[q].index ensures q == r {
        FilesOfRank(chunks, shards, perLayer, saves, key, q);
        KeyOfOneRank(chunks, shards, key, r, q);
      }
      forall q: nat, g: nat | InFile(saves, key, q, g) ensures q == r && g == f {
        FilesOfRank(chunks, shards, perLayer, saves, key, q);
      }
      MergedIndexOf(saves, key, r);
    }
  }

  /** A plain name of two ranks is in a file of each. */
  lemma SharedPlainSavedTwice<T>(chunks: seq<Chunk<T>>, shards: seq<nat>, perLayer: nat, saves: seq<Saved>)
    requires AllSaved(chunks, shards, perLayer, saves) && !PlainOnce(chunks)
    ensures !EachKeyOnce(saves)
  {
    var c: nat, d: nat :| c < d < |chunks| && !NoSharedPlain(chunks[c], chunks[d]);
    var x, y := chunks[c], chunks[d];
    var i, j :| 0 <= i < |x| && 0 <= j < |y| && x[i].key.Plain? && x[i].key == y[j].key;
    var key := x[i].key;
    PlainInDict(chunks, shards, c, key);
    PlainInDict(chunks, shards, d, key);
    FilesOfRank(chunks, shards, perLayer, saves, key, c);
    FilesOfRank(chunks, shards, perLayer, saves, key, d);
    assert InFile(saves, key, c, saves[c].index[key]) && InFile(saves, key, d, saves[d].index[key]);
  }

  /** Over all pipeline ranks, every key is in one file only and the merged index names it, if and only if no
      name outside of the layers is in the chunks of two ranks. */
  lemma EachKeyOnceIff<T>(chunks: seq<Chunk<T>>, shards: seq<nat>, perLayer: nat, saves: seq<Saved>)
    requires AllSaved(chunks, shards, perLayer, saves)
    ensures EachKeyOnce(saves) <==> PlainOnce(chunks)
  {
    if PlainOnce(chunks) {
      PlainOnceSavesOnce(chunks, shards, perLayer, saves);
    } else {
      SharedPlainSavedTwice(chunks, shards, perLayer, saves);
    }
  }

  /** A key is in some file exactly when it is in the dict of some rank: nothing is dropped or added. */
  lemma StoredIff<T>(chunks: seq<Chunk<T>>, shards: seq<nat>, perLayer: nat, saves: seq<Saved>, key: Key)
    requires AllSaved(chunks, shards, perLayer, saves)
    ensures (exists r: nat, f: nat :: InFile(saves, key, r, f)) <==>
            (exists r: nat :: r < |shards| && key in DictOf(chunks, shards, r))
  {
    if exists r: nat, f: nat :: InFile(saves, key, r, f) {
      var r: nat, f: nat :| InFile(saves, key, r, f);
      FilesOfRank(chunks, shards, perLayer, saves, key, r);
    }
    if exists r: nat :: r < |shards| && key in DictOf(chunks, shards, r) {
      var r: nat :| r < |shards| && key in DictOf(chunks, shards, r);
      FilesOfRank(chunks, shards, perLayer, saves, key, r);
    }
  }

  // ----- the merge of every rank

  /** Some rank writes file f. */
  ghost predicate Stored(saves: seq<Saved>, f: nat) {
    exists r: nat :: r < |saves| && f in saves[r].files
  }

  lemma FilesOfLayers<T>(chunks: seq<Chunk<T>>, shards: seq<nat>, perLayer: nat, saves: seq<Saved>)
    requires AllSaved(chunks, shards, perLayer, saves)
    ensures forall f: nat :: Stored(saves, f) <==> 1 <= f <= Sum(shards) * perLayer
  {
    forall f: nat ensures Stored(saves, f) <==> 1 <= f <= Sum(shards) * perLayer {
      FilesTile(shards, perLayer, f);
      forall r: nat | r < |saves| ensures f in saves[r].files <==> WritesFile(shards, perLayer, r, f) {
        assert SavedBy(chunks, shards, perLayer, r, saves[r]);
      }
    }
  }

  /** The files of rank r hold the keys of its dict in one order, cut evenly. */
  ghost predicate InEvenFiles<T>(chunks: seq<Chunk<T>>, shards: seq<nat>, perLayer: nat, r: nat,
                                 files: map<nat, seq<Key>>)
    requires r < |shards| == |chunks|
  {
    exists keys :: SplitOver(keys, Start(shards, r) * perLayer, files)
                   && forall key :: key in keys <==> key in DictOf(chunks, shards, r)
  }

  /** The names of a dict as a list. */
  method KeyList<T>(state: map<Key, T>) returns (keys: seq<Key>)
    ensures forall key :: key in keys <==> key in state
    ensures forall i, j | 0 <= i < j < |keys| :: keys[i] != keys[j]
  {
    keys := [];
    var rest := state.Keys;
    while rest != {}
      invariant rest <= state.Keys
      invariant forall key :: key in keys <==> key in state && key !in rest
      invariant forall i, j | 0 <= i < j < |keys| :: keys[i] != keys[j]
      decreases |rest|
    {
      var key :| key in rest;
      keys := keys + [key];
      rest := rest - {key};
    }
  }

  /** Each rank merges its chunk from its own first layer on and saves the result. None where a rank has no
      layers to split its files over. */
  method MergeAndSave<T>(chunks: seq<Chunk<T>>, shards: seq<nat>, layers: nat) returns (r: Option<seq<Saved>>)
    requires HasSizes(chunks, shards)
    ensures r.None? <==> exists k :: 0 <= k < |shards| && shards[k] == 0
    ensures r.Some? ==> AllSaved(chunks, shards, SavesPerLayer(layers), r.value)
    ensures r.Some? && layers < 30 ==> forall f: nat :: Stored(r.value, f) <==> 1 <= f <= Sum(shards)
    ensures r.Some? && layers >= 30 ==> forall f: nat :: Stored(r.value, f) <==> 1 <= f <= 2 * Sum(shards)
    ensures r.Some? ==> forall k | 0 <= k < |shards| ::
              InEvenFiles(chunks, shards, SavesPerLayer(layers), k, r.value[k].files)
  {
    var saves: seq<Saved> := [];
    for k := 0 to |shards|
      invariant |saves| == k && forall q | 0 <= q < k :: shards[q] != 0
      invariant forall q | 0 <= q < k ::
                  && SavedBy(chunks, shards, SavesPerLayer(layers), q, saves[q])
                  && InEvenFiles(chunks, shards, SavesPerLayer(layers), q, saves[q].files)
    {
      var first := LayerStart(shards, k);
      var state := MergeStateDicts(first, [chunks[k]]);
      var keys := KeyList(state);
      var saved := SaveModel(keys, shards, k, layers);
      if saved.None? {
        return None;
      }
      saves := saves + [Saved(saved.value.0, saved.value.1)];
    }
    FilesOfLayers(chunks, shards, SavesPerLayer(layers), saves);
    r := Some(saves);
  }
}
