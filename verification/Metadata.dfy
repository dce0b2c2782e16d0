/** The metadata dictionary of a bucket, and what a receiver sees of a bucket through it. A dictionary has
    one entry per name, so of two weights with one name in a bucket only the later bytes are seen. */
module Metadata {
  import opened Sequences
  import opened Weights

  /** Assignment to a key of an insertion-ordered dictionary: an old key keeps its place. */
  function Put(m: seq<Entry>, e: Entry): seq<Entry> {
    if m == [] then [e]
    else if m[0].name == e.name then [e] + m[1..]
    else [m[0]] + Put(m[1..], e)
  }

  /** The dictionary the loop builds for one bucket, assignment by assignment. */
  function DictMeta(b: Bucket): seq<Entry> {
    if b == [] then []
    else
      var w := b[|b| - 1];
      Put(DictMeta(b[..|b| - 1]), Entry(w.name, |Bytes(b[..|b| - 1])|, |w.bytes|))
  }

  lemma {:induction false} PutFresh(m: seq<Entry>, e: Entry)
    requires forall i | 0 <= i < |m| :: m[i].name != e.name
    ensures Put(m, e) == m + [e]
  {
    if m != [] {
      PutFresh(m[1..], e);
    }
  }

  /** A name that is there keeps its place and gets the new entry. */
  lemma {:induction false} PutKeepsPlace(m: seq<Entry>, e: Entry, i: nat)
    requires i < |m| && m[i].name == e.name && forall j | 0 <= j < i :: m[j].name != e.name
    ensures Put(m, e) == m[i := e]
  {
    if i > 0 {
      PutKeepsPlace(m[1..], e, i - 1);
    }
  }

  lemma DictSnoc(b: Bucket, w: Weight)
    ensures DictMeta(b + [w]) == Put(DictMeta(b), Entry(w.name, |Bytes(b)|, |w.bytes|))
  {
    assert (b + [w])[..|b|] == b;
  }

  predicate HasName(m: seq<Entry>, name: string) {
    exists i :: 0 <= i < |m| && m[i].name == name
  }

  lemma {:induction false} PutLength(m: seq<Entry>, e: Entry)
    ensures |Put(m, e)| == if HasName(m, e.name) then |m| else |m| + 1
  {
    if m != [] {
      PutLength(m[1..], e);
      if m[0].name != e.name {
        assert HasName(m, e.name) <==> HasName(m[1..], e.name) by {
          if HasName(m[1..], e.name) {
            var i :| 0 <= i < |m[1..]| && m[1..][i].name == e.name;
            assert m[i + 1].name == e.name;
          }
          if HasName(m, e.name) {
            var i :| 0 <= i < |m| && m[i].name == e.name;
            assert m[1..][i - 1].name == e.name;
          }
        }
      }
    }
  }

  lemma {:induction false} PutNames(m: seq<Entry>, e: Entry, name: string)
    ensures HasName(Put(m, e), name) <==> HasName(m, name) || name == e.name
  {
    if m == [] {
      assert Put(m, e)[0].name == e.name;
    } else {
      var r := Put(m, e);
      PutNames(m[1..], e, name);
      assert m == [m[0]] + m[1..];
      HeadNames(m, name);
      HeadNames(r, name);
      assert r[1..] == if m[0].name == e.name then m[1..] else Put(m[1..], e);
    }
  }

  lemma HeadNames(m: seq<Entry>, name: string)
    requires m != []
    ensures HasName(m, name) <==> m[0].name == name || HasName(m[1..], name)
  {
    if HasName(m, name) {
      var i :| 0 <= i < |m| && m[i].name == name;
      if i > 0 {
        assert m[1..][i - 1].name == name;
      }
    }
    if HasName(m[1..], name) {
      var i :| 0 <= i < |m[1..]| && m[1..][i].name == name;
      assert m[i + 1].name == name;
    }
  }

  lemma {:induction false} DictNames(b: Bucket, name: string)
    ensures HasName(DictMeta(b), name) <==> exists i :: 0 <= i < |b| && b[i].name == name
  {
    if b != [] {
      var n := |b| - 1;
      DictNames(b[..n], name);
      PutNames(DictMeta(b[..n]), Entry(b[n].name, |Bytes(b[..n])|, |b[n].bytes|), name);
      assert forall i | 0 <= i < n :: b[..n][i] == b[i];
      assert (exists i :: 0 <= i < |b[..n]| && b[..n][i].name == name) ==>
             exists i :: 0 <= i < |b| && b[i].name == name;
    }
  }

  /** The metadata has an entry for every weight of the bucket exactly when no two of them share a name:
      of two weights with one name the first is never yielded. */
  lemma {:induction false} MetadataCompleteIff(b: Bucket)
    ensures |DictMeta(b)| <= |b|
    ensures |DictMeta(b)| == |b| <==> DistinctNames(b)
  {
    if b != [] {
      var n := |b| - 1;
      var i := b[..n];
      MetadataCompleteIff(i);
      DictNames(i, b[n].name);
      PutLength(DictMeta(i), Entry(b[n].name, |Bytes(i)|, |b[n].bytes|));
      if DistinctNames(b) {
        assert DistinctNames(i);
      }
      if HasName(DictMeta(i), b[n].name) {
        var j :| 0 <= j < n && i[j].name == b[n].name;
        assert b[j].name == b[n].name;
      } else if DistinctNames(i) {
        forall j, k | 0 <= j < k < |b| ensures b[j].name != b[k].name {
          assert i[j].name == b[j].name;
          if k < n {
            assert i[k].name == b[k].name;
          }
        }
      }
    }
  }

  /** With distinct names the dictionary is the bucket's layout. */
  lemma {:induction false} DictIsLayout(b: Bucket)
    requires DistinctNames(b)
    ensures DictMeta(b) == MetaOf(b)
  {
    if b != [] {
      var n := |b| - 1;
      DictIsLayout(b[..n]);
      forall i | 0 <= i < n ensures MetaOf(b[..n])[i].name != b[n].name {
        MetaNames(b[..n], i);
      }
      PutFresh(MetaOf(b[..n]), Entry(b[n].name, |Bytes(b[..n])|, |b[n].bytes|));
    }
  }

  // ----- what a receiver sees

  /** The weights that the metadata of a bucket cuts out of its bytes. */
  function Shown(b: Bucket): (r: Bucket)
    ensures |r| == |DictMeta(b)|
  {
    var m := DictMeta(b);
    seq(|m|, i requires 0 <= i < |m| => Weight(m[i].name, View(Bytes(b), m[i])))
  }

  function ShownAll(parts: seq<Bucket>): Bucket {
    if parts == [] then [] else ShownAll(parts[..|parts| - 1]) + Shown(parts[|parts| - 1])
  }

  /** No bucket has two weights of one name. */
  predicate NamesApart(parts: seq<Bucket>) {
    forall i | 0 <= i < |parts| :: DistinctNames(parts[i])
  }

  lemma {:induction false} PutBounds(m: seq<Entry>, e: Entry, bound: nat)
    requires e.offset + e.length <= bound && forall i | 0 <= i < |m| :: m[i].offset + m[i].length <= bound
    ensures forall i | 0 <= i < |Put(m, e)| :: Put(m, e)[i].offset + Put(m, e)[i].length <= bound
  {
    if m != [] {
      PutBounds(m[1..], e, bound);
    }
  }

  /** Every entry lies inside the bytes of the bucket. */
  lemma {:induction false} DictBounds(b: Bucket)
    ensures forall i | 0 <= i < |DictMeta(b)| :: DictMeta(b)[i].offset + DictMeta(b)[i].length <= |Bytes(b)|
  {
    if b != [] {
      var n := |b| - 1;
      DictBounds(b[..n]);
      PutBounds(DictMeta(b[..n]), Entry(b[n].name, |Bytes(b[..n])|, |b[n].bytes|), |Bytes(b)|);
    }
  }

  /** A buffer that holds the bucket shows it, whatever lies behind. */
  lemma ViewShows(buf: seq<byte>, b: Bucket, i: nat)
    requires i < |DictMeta(b)| && Holds(buf, b)
    ensures Weight(DictMeta(b)[i].name, View(buf, DictMeta(b)[i])) == Shown(b)[i]
  {
    DictBounds(b);
    var e := DictMeta(b)[i];
    assert e.offset + e.length <= |Bytes(b)|;
    assert buf[e.offset..e.offset + e.length] == buf[..|Bytes(b)|][e.offset..e.offset + e.length];
  }

  /** A receiver sees the bucket itself exactly when its names are distinct. */
  lemma ShownIsBucketIff(b: Bucket)
    ensures Shown(b) == b <==> DistinctNames(b)
  {
    MetadataCompleteIff(b);
    if DistinctNames(b) {
      DictIsLayout(b);
      forall i | 0 <= i < |b| ensures Shown(b)[i] == b[i] {
        assert Bytes(b)[..|Bytes(b)|] == Bytes(b);
        ViewRestores(Bytes(b), b, i);
        MetaNames(b, i);
      }
    }
  }

  lemma ShownAllSnoc(parts: seq<Bucket>, b: Bucket)
    ensures ShownAll(parts + [b]) == ShownAll(parts) + Shown(b)
  {
    assert (parts + [b])[..|parts|] == parts;
  }

  lemma {:induction false} ShownAllConcat(p: seq<Bucket>, q: seq<Bucket>)
    ensures ShownAll(p + q) == ShownAll(p) + ShownAll(q)
  {
    if q == [] {
      assert p + q == p;
    } else {
      var rest, last := q[..|q| - 1], q[|q| - 1];
      ShownAllConcat(p, rest);
      assert q == rest + [last] && p + q == (p + rest) + [last];
      ShownAllSnoc(rest, last);
      ShownAllSnoc(p + rest, last);
      Associate(ShownAll(p), ShownAll(rest), Shown(last));
    }
  }

  /** Receivers see no more weights than were sent, and the stream itself exactly when no bucket has two
      weights of one name. */
  lemma {:induction false} ShownAllIsStreamIff(parts: seq<Bucket>)
    ensures |ShownAll(parts)| <= |Flatten(parts)|
    ensures ShownAll(parts) == Flatten(parts) <==> NamesApart(parts)
  {
    if parts != [] {
      var rest, last := parts[..|parts| - 1], parts[|parts| - 1];
      ShownAllIsStreamIff(rest);
      MetadataCompleteIff(last);
      ShownIsBucketIff(last);
      assert NamesApart(parts) <==> NamesApart(rest) && DistinctNames(last) by {
        assert forall i | 0 <= i < |rest| :: rest[i] == parts[i];
      }
      if ShownAll(parts) == Flatten(parts) {
        SameSplit(ShownAll(rest), Shown(last), Flatten(rest), last);
      }
    }
  }

  lemma SameSplit<T>(a: seq<T>, b: seq<T>, c: seq<T>, d: seq<T>)
    requires a + b == c + d && |a| <= |c| && |b| <= |d|
    ensures a == c && b == d
  {
    assert a == (a + b)[..|a|] && c == (c + d)[..|c|];
    assert b == (a + b)[|a|..] && d == (c + d)[|c|..];
  }

  /** Of two one-byte weights with one name in one bucket a receiver sees only the second. */
  lemma RepeatedNameShownOnce()
    ensures var ws := [Weight("w", [1]), Weight("w", [2])];
            && Buckets(ws, 2) == [ws]
            && ShownAll(Buckets(ws, 2)) == [Weight("w", [2])]
            && !NamesApart(Buckets(ws, 2))
  {
    var a, b := Weight("w", [1]), Weight("w", [2]);
    var ws := [a, b];
    BytesOne(a);
    BytesSnoc([a], b);
    assert Pack([], 2, ws) == [ws];
    assert [b][1..] == [] && [a] + [b] == ws;
    assert Pack([b], 2, [a]) == Pack([], 2, ws);
    assert ws[1..] == [b] && [] + [a] == [a];
    assert Pack(ws, 2, []) == Pack([b], 2, [a]);
    PairShown(a, b);
    assert [ws][..0] == [] && ShownAll([ws]) == [] + Shown(ws);
    assert ws[0].name == ws[1].name;
  }

  lemma PairShown(a: Weight, b: Weight)
    requires a.name == b.name && |a.bytes| == |b.bytes| == 1
    ensures Shown([a, b]) == [b]
  {
    var ws := [a, b];
    BytesOne(a);
    BytesSnoc([a], b);
    DictSnoc([], a);
    DictSnoc([a], b);
    assert [] + [a] == [a] && [a] + [b] == ws;
    assert DictMeta(ws) == [Entry(b.name, 1, 1)];
    assert Bytes(ws) == a.bytes + b.bytes;
    assert (a.bytes + b.bytes)[1..2] == b.bytes;
  }
}
