/** Numbers that must fit together across pipeline stages: global layer numbers in the merged state
    dict, and the numbers of the output files each rank writes. */
module LayerNumbering {
  /** A parameter name: in a numbered layer, or outside of all layers. */
  datatype Key = Plain(kind: string) | InLayer(no: nat, kind: string)

  datatype Entry<T> = Entry(key: Key, tensor: T)

  /** The state dict of one model chunk, in insertion order. */
  type Chunk<T> = seq<Entry<T>>

  function Renamed(key: Key, base: nat): Key {
    match key
    case Plain(_) => key
    case InLayer(no, kind) => InLayer(no + base, kind)
  }

  function Shifted<T>(chunk: Chunk<T>, base: nat): Chunk<T> {
    if chunk == [] then []
    else Shifted(chunk[..|chunk| - 1], base) + [Entry(Renamed(chunk[|chunk| - 1].key, base), chunk[|chunk| - 1].tensor)]
  }

  /** The highest layer number in the chunk; 0 where it has no layer. */
  function Handled<T>(chunk: Chunk<T>): nat {
    if chunk == [] then 0
    else
      var rest, key := Handled(chunk[..|chunk| - 1]), chunk[|chunk| - 1].key;
      if key.InLayer? && key.no > rest then key.no else rest
  }

  /** Where the numbering stands after the chunks. */
  function Base<T>(start: nat, chunks: seq<Chunk<T>>): nat {
    if chunks == [] then start
    else Base(start, chunks[..|chunks| - 1]) + Handled(chunks[|chunks| - 1]) + 1
  }

  function Renumbered<T>(start: nat, chunks: seq<Chunk<T>>): Chunk<T> {
    if chunks == [] then []
    else
      var rest := chunks[..|chunks| - 1];
      Renumbered(start, rest) + Shifted(chunks[|chunks| - 1], Base(start, rest))
  }

  /** A dict after the assignments, in order. */
  function AsDict<T>(entries: Chunk<T>): map<Key, T> {
    if entries == [] then map[]
    else AsDict(entries[..|entries| - 1])[entries[|entries| - 1].key := entries[|entries| - 1].tensor]
  }

  lemma RenumberedSnoc<T>(start: nat, chunks: seq<Chunk<T>>, c: nat)
    requires c < |chunks|
    ensures Renumbered(start, chunks[..c + 1]) ==
            Renumbered(start, chunks[..c]) + Shifted(chunks[c], Base(start, chunks[..c]))
    ensures Base(start, chunks[..c + 1]) == Base(start, chunks[..c]) + Handled(chunks[c]) + 1
  {
    assert chunks[..c + 1][..c] == chunks[..c];
  }

  lemma ShiftedSnoc<T>(chunk: Chunk<T>, base: nat, j: nat)
    requires j < |chunk|
    ensures Shifted(chunk[..j + 1], base) ==
            Shifted(chunk[..j], base) + [Entry(Renamed(chunk[j].key, base), chunk[j].tensor)]
    ensures Handled(chunk[..j + 1]) ==
            if chunk[j].key.InLayer? && chunk[j].key.no > Handled(chunk[..j])
            then chunk[j].key.no else Handled(chunk[..j])
  {
    assert chunk[..j + 1][..j] == chunk[..j];
  }

  lemma AsDictSnoc<T>(entries: Chunk<T>, more: Chunk<T>, e: Entry<T>)
    ensures AsDict(entries + (more + [e])) == AsDict(entries + more)[e.key := e.tensor]
  {
    var all := entries + (more + [e]);
    assert all == (entries + more) + [e];
    assert all[..|all| - 1] == entries + more;
  }

  /** Merges the chunks of a rank into one state dict, counting layers from `start`. */
  method MergeStateDicts<T>(start: nat, chunks: seq<Chunk<T>>) returns (state: map<Key, T>)
    ensures state == AsDict(Renumbered(start, chunks))
  {
    state := map[];
    var layersCum := start;
    for c := 0 to |chunks|
      invariant layersCum == Base(start, chunks[..c])
      invariant state == AsDict(Renumbered(start, chunks[..c]))
    {
      var layersHandled := 0;
      ghost var done := Renumbered(start, chunks[..c]);
      assert done + Shifted(chunks[c][..0], layersCum) == done;
      for j := 0 to |chunks[c]|
        invariant layersHandled == Handled(chunks[c][..j])
        invariant state == AsDict(done + Shifted(chunks[c][..j], layersCum))
      {
        var e := chunks[c][j];
        ShiftedSnoc(chunks[c], layersCum, j);
        AsDictSnoc(done, Shifted(chunks[c][..j], layersCum), Entry(Renamed(e.key, layersCum), e.tensor));
        if e.key.InLayer? {
          layersHandled := if e.key.no > layersHandled then e.key.no else layersHandled;
          state := state[InLayer(e.key.no + layersCum, e.key.kind) := e.tensor];
        } else {
          state := state[e.key := e.tensor];
        }
      }
      assert chunks[c][..|chunks[c]|] == chunks[c];
      RenumberedSnoc(start, chunks, c);
      layersCum := layersCum + layersHandled + 1;
    }
    assert chunks[..|chunks|] == chunks;
  }

  // ----- where each entry goes

  lemma {:induction false} ShiftedAt<T>(chunk: Chunk<T>, base: nat, j: nat)
    requires j < |chunk|
    ensures |Shifted(chunk, base)| == |chunk|
    ensures Shifted(chunk, base)[j] == Entry(Renamed(chunk[j].key, base), chunk[j].tensor)
  {
    ShiftedLength(chunk, base);
    ShiftedLength(chunk[..|chunk| - 1], base);
    if j < |chunk| - 1 {
      ShiftedAt(chunk[..|chunk| - 1], base, j);
    }
  }

  lemma {:induction false} ShiftedLength<T>(chunk: Chunk<T>, base: nat)
    ensures |Shifted(chunk, base)| == |chunk|
  {
    if chunk != [] {
      ShiftedLength(chunk[..|chunk| - 1], base);
    }
  }

  lemma RenumberedLast<T>(start: nat, chunks: seq<Chunk<T>>)
    requires chunks != []
    ensures var rest, last := chunks[..|chunks| - 1], chunks[|chunks| - 1];
            && Renumbered(start, chunks) == Renumbered(start, rest) + Shifted(last, Base(start, rest))
            && |Renumbered(start, chunks)| == |Renumbered(start, rest)| + |last|
  {
    ShiftedLength(chunks[|chunks| - 1], Base(start, chunks[..|chunks| - 1]));
  }

  /** Entry i of chunk c is at place k after renumbering. */
  ghost predicate At<T>(start: nat, chunks: seq<Chunk<T>>, c: nat, i: nat, k: nat) {
    && c < |chunks| && i < |chunks[c]| && k < |Renumbered(start, chunks)|
    && var e := chunks[c][i];
       Renumbered(start, chunks)[k] == Entry(Renamed(e.key, Base(start, chunks[..c])), e.tensor)
  }

  lemma {:induction false} Source<T>(start: nat, chunks: seq<Chunk<T>>, k: nat) returns (c: nat, i: nat)
    requires k < |Renumbered(start, chunks)|
    ensures At(start, chunks, c, i, k)
  {
    var rest, last := chunks[..|chunks| - 1], chunks[|chunks| - 1];
    RenumberedLast(start, chunks);
    var before := |Renumbered(start, rest)|;
    if k < before {
      c, i := Source(start, rest, k);
      assert rest[..c] == chunks[..c];
    } else {
      c, i := |rest|, k - before;
      ShiftedAt(last, Base(start, rest), i);
    }
  }

  lemma {:induction false} Place<T>(start: nat, chunks: seq<Chunk<T>>, c: nat, i: nat) returns (k: nat)
    requires c < |chunks| && i < |chunks[c]|
    ensures At(start, chunks, c, i, k)
    ensures |Renumbered(start, chunks[..c])| <= k < |Renumbered(start, chunks[..c + 1])|
  {
    var rest, last := chunks[..|chunks| - 1], chunks[|chunks| - 1];
    RenumberedLast(start, chunks);
    if c < |rest| {
      k := Place(start, rest, c, i);
      assert rest[..c] == chunks[..c] && rest[..c + 1] == chunks[..c + 1];
    } else {
      k := |Renumbered(start, rest)| + i;
      ShiftedAt(last, Base(start, rest), i);
      assert chunks[..c + 1] == chunks;
    }
  }

  lemma {:induction false} HandledBounds<T>(chunk: Chunk<T>, i: nat)
    requires i < |chunk| && chunk[i].key.InLayer?
    ensures chunk[i].key.no <= Handled(chunk)
  {
    if i < |chunk| - 1 {
      HandledBounds(chunk[..|chunk| - 1], i);
    }
  }

  lemma {:induction false} NumbersBelowBase<T>(start: nat, chunks: seq<Chunk<T>>, k: nat)
    requires k < |Renumbered(start, chunks)| && Renumbered(start, chunks)[k].key.InLayer?
    ensures start <= Renumbered(start, chunks)[k].key.no < Base(start, chunks)
  {
    var rest, last := chunks[..|chunks| - 1], chunks[|chunks| - 1];
    RenumberedLast(start, chunks);
    BaseAtLeast(start, rest);
    var before := |Renumbered(start, rest)|;
    if k < before {
      NumbersBelowBase(start, rest, k);
    } else {
      ShiftedAt(last, Base(start, rest), k - before);
      HandledBounds(last, k - before);
    }
  }

  lemma {:induction false} BaseAtLeast<T>(start: nat, chunks: seq<Chunk<T>>)
    ensures Base(start, chunks) >= start
  {
    if chunks != [] {
      BaseAtLeast(start, chunks[..|chunks| - 1]);
    }
  }

  // ----- nothing is overwritten

  predicate Distinct<T>(entries: Chunk<T>) {
    forall i, j | 0 <= i < j < |entries| :: entries[i].key != entries[j].key
  }

  /** No name outside of the layers is in two chunks. */
  predicate PlainOnce<T>(chunks: seq<Chunk<T>>) {
    forall c, d | 0 <= c < d < |chunks| :: NoSharedPlain(chunks[c], chunks[d])
  }

  predicate NoSharedPlain<T>(x: Chunk<T>, y: Chunk<T>) {
    forall i, j | 0 <= i < |x| && 0 <= j < |y| && x[i].key.Plain? :: x[i].key != y[j].key
  }

  /** Renumbering keeps the keys of all chunks apart exactly when no plain name is in two chunks:
      layer keys of two chunks never collide. */
  lemma {:induction false} KeysStayDistinctIff<T>(start: nat, chunks: seq<Chunk<T>>)
    requires forall c | 0 <= c < |chunks| :: Distinct(chunks[c])
    ensures Distinct(Renumbered(start, chunks)) <==> PlainOnce(chunks)
  {
    if PlainOnce(chunks) {
      PlainOnceKeepsApart(start, chunks);
    } else {
      var c, d :| 0 <= c < d < |chunks| && !NoSharedPlain(chunks[c], chunks[d]);
      SharedPlainCollides(start, chunks, c, d);
    }
  }

  lemma {:induction false} PlainOnceKeepsApart<T>(start: nat, chunks: seq<Chunk<T>>)
    requires forall c | 0 <= c < |chunks| :: Distinct(chunks[c])
    requires PlainOnce(chunks)
    ensures Distinct(Renumbered(start, chunks))
  {
    if chunks != [] {
      var rest, last := chunks[..|chunks| - 1], chunks[|chunks| - 1];
      PlainOnceKeepsApart(start, rest);
      RenumberedLast(start, chunks);
      var all, before := Renumbered(start, chunks), |Renumbered(start, rest)|;
      forall i, j | 0 <= i < j < |all| ensures all[i].key != all[j].key {
        if i >= before {
          ShiftedAt(last, Base(start, rest), i - before);
          ShiftedAt(last, Base(start, rest), j - before);
        } else if j >= before {
          ShiftedAt(last, Base(start, rest), j - before);
          if all[i].key.InLayer? {
            NumbersBelowBase(start, rest, i);
          } else {
            var c, k := Source(start, rest, i);
            assert NoSharedPlain(chunks[c], last);
          }
        }
      }
    }
  }

  lemma SharedPlainCollides<T>(start: nat, chunks: seq<Chunk<T>>, c: nat, d: nat)
    requires c < d < |chunks| && !NoSharedPlain(chunks[c], chunks[d])
    ensures !Distinct(Renumbered(start, chunks))
  {
    var x, y := chunks[c], chunks[d];
    var i, j :| 0 <= i < |x| && 0 <= j < |y| && x[i].key.Plain? && x[i].key == y[j].key;
    var k := Place(start, chunks, c, i);
    var l := Place(start, chunks, d, j);
    Grows(start, chunks, c + 1, d);
    assert Renumbered(start, chunks)[k].key == Renumbered(start, chunks)[l].key;
  }

  lemma {:induction false} Grows<T>(start: nat, chunks: seq<Chunk<T>>, c: nat, d: nat)
    requires c <= d <= |chunks|
    ensures |Renumbered(start, chunks[..c])| <= |Renumbered(start, chunks[..d])|
    decreases d
  {
    if c < d {
      Grows(start, chunks, c, d - 1);
      RenumberedSnoc(start, chunks, d - 1);
    }
  }

  /** Of several entries with one key the dict has the last. */
  lemma {:induction false} LastEntryWins<T>(entries: Chunk<T>, k: nat)
    requires k < |entries| && forall j | k < j < |entries| :: entries[j].key != entries[k].key
    ensures entries[k].key in AsDict(entries) && AsDict(entries)[entries[k].key] == entries[k].tensor
  {
    if k < |entries| - 1 {
      LastEntryWins(entries[..|entries| - 1], k);
    }
  }

  lemma {:induction false} DictOfDistinct<T>(entries: Chunk<T>)
    requires Distinct(entries)
    ensures |AsDict(entries)| == |entries|
    ensures forall i | 0 <= i < |entries| ::
              entries[i].key in AsDict(entries) && AsDict(entries)[entries[i].key] == entries[i].tensor
  {
    if entries != [] {
      var rest, last := entries[..|entries| - 1], entries[|entries| - 1];
      DictOfDistinct(rest);
      DictKeys(rest);
      assert last.key !in AsDict(rest);
      assert AsDict(entries).Keys == AsDict(rest).Keys + {last.key};
      assert |AsDict(entries)| == |AsDict(entries).Keys|;
      assert |AsDict(rest)| == |AsDict(rest).Keys|;
    }
  }

  lemma {:induction false} DictKeys<T>(entries: Chunk<T>)
    ensures forall key :: key in AsDict(entries) <==> exists i :: 0 <= i < |entries| && entries[i].key == key
  {
    if entries != [] {
      var rest := entries[..|entries| - 1];
      DictKeys(rest);
      forall key | key in AsDict(entries) ensures exists i :: 0 <= i < |entries| && entries[i].key == key {
        if key in AsDict(rest) {
          var i :| 0 <= i < |rest| && rest[i].key == key;
          assert entries[i].key == key;
        }
      }
      forall key | exists i :: 0 <= i < |entries| && entries[i].key == key ensures key in AsDict(entries) {
        var i :| 0 <= i < |entries| && entries[i].key == key;
        if i < |rest| {
          assert rest[i].key == key;
        }
      }
    }
  }

  function Count<T>(chunks: seq<Chunk<T>>): nat {
    if chunks == [] then 0 else Count(chunks[..|chunks| - 1]) + |chunks[|chunks| - 1]|
  }

  lemma {:induction false} RenumberedCount<T>(start: nat, chunks: seq<Chunk<T>>)
    ensures |Renumbered(start, chunks)| == Count(chunks)
  {
    if chunks != [] {
      RenumberedCount(start, chunks[..|chunks| - 1]);
      RenumberedLast(start, chunks);
    }
  }

  /** The merged dict holds every tensor of every chunk, each under its renumbered name, and no more. */
  lemma EveryTensorKept<T>(start: nat, chunks: seq<Chunk<T>>)
    requires forall c | 0 <= c < |chunks| :: Distinct(chunks[c])
    requires PlainOnce(chunks)
    ensures var state := AsDict(Renumbered(start, chunks));
            && |state| == Count(chunks)
            && forall c, i | 0 <= c < |chunks| && 0 <= i < |chunks[c]| ::
                 var key := Renamed(chunks[c][i].key, Base(start, chunks[..c]));
                 key in state && state[key] == chunks[c][i].tensor
  {
    KeysStayDistinctIff(start, chunks);
    DictOfDistinct(Renumbered(start, chunks));
    RenumberedCount(start, chunks);
    var state := AsDict(Renumbered(start, chunks));
    forall c, i | 0 <= c < |chunks| && 0 <= i < |chunks[c]|
      ensures var key := Renamed(chunks[c][i].key, Base(start, chunks[..c]));
              key in state && state[key] == chunks[c][i].tensor
    {
      var k := Place(start, chunks, c, i);
    }
  }
}
