/** Named weights as byte strings, and the greedy packing of a weight stream into buckets.
    A weight's dtype and shape are not modelled: its bytes are what every engine moves. */
module Weights {
  type byte = x: int | 0 <= x < 256

  datatype Weight = Weight(name: string, bytes: seq<byte>)

  /** What a bucket's metadata keeps of one weight: where its bytes lie in the bucket. */
  datatype Entry = Entry(name: string, offset: nat, length: nat)

  type Bucket = seq<Weight>

  function Bytes(b: Bucket): seq<byte> {
    if b == [] then [] else Bytes(b[..|b| - 1]) + b[|b| - 1].bytes
  }

  function Flatten(parts: seq<Bucket>): Bucket {
    if parts == [] then [] else Flatten(parts[..|parts| - 1]) + parts[|parts| - 1]
  }

  /** The metadata of a bucket: every weight lies right behind the weights before it. */
  function MetaOf(b: Bucket): (m: seq<Entry>)
    ensures |m| == |b|
  {
    if b == [] then []
    else
      var w := b[|b| - 1];
      MetaOf(b[..|b| - 1]) + [Entry(w.name, |Bytes(b[..|b| - 1])|, |w.bytes|)]
  }

  predicate AllFit(ws: seq<Weight>, size: nat) {
    forall w | w in ws :: |w.bytes| <= size
  }

  predicate DistinctNames(ws: seq<Weight>) {
    forall i, j | 0 <= i < j < |ws| :: ws[i].name != ws[j].name
  }

  /** The buckets still to come when `cur` is partly filled and `ws` remains. */
  function Pack(ws: seq<Weight>, size: nat, cur: Bucket): (r: seq<Bucket>)
    ensures |r| >= 1
    decreases |ws|
  {
    if ws == [] then [cur]
    else if |Bytes(cur)| + |ws[0].bytes| > size then [cur] + Pack(ws[1..], size, [ws[0]])
    else Pack(ws[1..], size, cur + [ws[0]])
  }

  function Buckets(ws: seq<Weight>, size: nat): (r: seq<Bucket>)
    ensures |r| >= 1
  {
    Pack(ws, size, [])
  }

  /** A slice of a buffer as a yielded view sees it; empty when the metadata does not fit the buffer. */
  function View(buf: seq<byte>, e: Entry): seq<byte> {
    if e.offset + e.length <= |buf| then buf[e.offset..e.offset + e.length] else []
  }

  /** The buffer starts with the bytes of the bucket. */
  predicate Holds(buf: seq<byte>, b: Bucket) {
    |Bytes(b)| <= |buf| && buf[..|Bytes(b)|] == Bytes(b)
  }

  lemma BytesSnoc(b: Bucket, w: Weight)
    ensures Bytes(b + [w]) == Bytes(b) + w.bytes
  {
    assert (b + [w])[..|b|] == b;
  }

  lemma {:induction false} MetaNames(b: Bucket, i: nat)
    requires i < |b|
    ensures MetaOf(b)[i].name == b[i].name
  {
    if i < |b| - 1 {
      MetaNames(b[..|b| - 1], i);
    }
  }

  lemma {:induction false} BytesConcat(a: Bucket, b: Bucket)
    ensures Bytes(a + b) == Bytes(a) + Bytes(b)
  {
    if b == [] {
      assert a + b == a;
    } else {
      var i := b[..|b| - 1];
      BytesConcat(a, i);
      assert (a + b)[..|a + b| - 1] == a + i;
    }
  }

  lemma FlattenSnoc(parts: seq<Bucket>, b: Bucket)
    ensures Flatten(parts + [b]) == Flatten(parts) + b
  {
    assert (parts + [b])[..|parts|] == parts;
  }

  lemma {:induction false} FlattenConcat(p: seq<Bucket>, q: seq<Bucket>)
    ensures Flatten(p + q) == Flatten(p) + Flatten(q)
  {
    if q == [] {
      assert p + q == p;
    } else {
      FlattenConcat(p, q[..|q| - 1]);
      assert (p + q)[..|p + q| - 1] == p + q[..|q| - 1];
    }
  }

  lemma FlattenCons(parts: seq<Bucket>)
    requires parts != []
    ensures Flatten(parts) == parts[0] + Flatten(parts[1..])
  {
    FlattenConcat(parts[..1], parts[1..]);
    assert parts[..1] + parts[1..] == parts;
    assert parts[..1][..0] == [];
    assert Flatten(parts[..1]) == parts[0];
  }

  /** Entries lie inside the bucket, one right behind the other: contiguous, hence disjoint. */
  lemma {:induction false} LayoutContiguous(b: Bucket, i: nat)
    requires i < |b|
    ensures MetaOf(b)[i] == Entry(b[i].name, |Bytes(b[..i])|, |b[i].bytes|)
    ensures MetaOf(b)[i].offset + MetaOf(b)[i].length == |Bytes(b[..i + 1])| <= |Bytes(b)|
    ensures i + 1 < |b| ==> MetaOf(b)[i + 1].offset == MetaOf(b)[i].offset + MetaOf(b)[i].length
  {
    var n := |b| - 1;
    assert b[..i + 1] == b[..i] + [b[i]];
    BytesSnoc(b[..i], b[i]);
    assert b == b[..i + 1] + b[i + 1..];
    BytesConcat(b[..i + 1], b[i + 1..]);
    if i < n {
      LayoutContiguous(b[..n], i);
      assert b[..n][..i] == b[..i];
      if i + 1 == n {
        assert b[..n] == b[..i + 1];
      }
    }
  }

  lemma BytesOne(w: Weight)
    ensures Bytes([w]) == w.bytes
  {
    assert [w][..0] == [];
  }

  lemma CutAt<T>(s: seq<T>, i: nat)
    requires i < |s|
    ensures s == s[..i] + [s[i]] + s[i + 1..]
  {
  }

  lemma SplitAt(b: Bucket, i: nat)
    requires i < |b|
    ensures Bytes(b) == Bytes(b[..i]) + b[i].bytes + Bytes(b[i + 1..])
  {
    BytesOne(b[i]);
    BytesConcat(b[..i], [b[i]]);
    BytesConcat(b[..i] + [b[i]], b[i + 1..]);
    CutAt(b, i);
  }

  lemma Middle(buf: seq<byte>, pre: seq<byte>, mid: seq<byte>, post: seq<byte>)
    requires |pre + mid + post| <= |buf| && buf[..|pre + mid + post|] == pre + mid + post
    ensures buf[|pre|..|pre| + |mid|] == mid
  {
    var n := |pre + mid + post|;
    assert buf[|pre|..|pre| + |mid|] == buf[..n][|pre|..|pre| + |mid|];
  }

  /** A view cut out by the metadata of a bucket is exactly that weight's bytes. */
  lemma ViewRestores(buf: seq<byte>, b: Bucket, i: nat)
    requires i < |b| && Holds(buf, b)
    ensures View(buf, MetaOf(b)[i]) == b[i].bytes
  {
    LayoutContiguous(b, i);
    SplitAt(b, i);
    Middle(buf, Bytes(b[..i]), b[i].bytes, Bytes(b[i + 1..]));
  }

  /** Concatenating the buckets gives the stream back, and every bucket fits. */
  lemma {:induction false} PackSound(ws: seq<Weight>, size: nat, cur: Bucket)
    requires AllFit(ws, size) && |Bytes(cur)| <= size
    ensures Flatten(Pack(ws, size, cur)) == cur + ws
    ensures forall b | b in Pack(ws, size, cur) :: |Bytes(b)| <= size
    decreases |ws|
  {
    if ws == [] {
      FlattenSnoc([], cur);
      assert [] + [cur] == [cur];
    } else {
      var w, rest := ws[0], ws[1..];
      assert ws == [w] + rest;
      if |Bytes(cur)| + |w.bytes| > size {
        BytesOne(w);
        PackSound(rest, size, [w]);
        var tail := Pack(rest, size, [w]);
        FlattenCons([cur] + tail);
        assert ([cur] + tail)[1..] == tail;
      } else {
        BytesSnoc(cur, w);
        PackSound(rest, size, cur + [w]);
        assert cur + ws == cur + [w] + rest;
      }
    }
  }

  /** Greedy stays ahead: a partition whose open part begins no later than the greedy bucket
      needs at least as many parts. */
  lemma {:induction false} GreedyAhead(ws: seq<Weight>, size: nat, cur: Bucket, before: Bucket, parts: seq<Bucket>)
    requires before + cur + ws != []
    requires Flatten(parts) == before + cur + ws
    requires forall p | p in parts :: |Bytes(p)| <= size
    ensures |Pack(ws, size, cur)| <= |parts|
    decreases |ws|
  {
    if ws == [] {
      assert parts != [];
    } else {
      var w := ws[0];
      assert ws == [w] + ws[1..];
      if |Bytes(cur)| + |w.bytes| > size {
        FlattenCons(parts);
        var open := before + cur;
        if |parts[0]| > |open| {
          var rest := parts[0][|open| + 1..];
          assert parts[0] == (open + [w]) + rest by {
            assert parts[0] == (before + cur + ws)[..|parts[0]|];
          }
          BytesConcat(open + [w], rest);
          BytesSnoc(open, w);
          BytesConcat(before, cur);
          assert false;
        }
        var left := open[|parts[0]|..];
        assert Flatten(parts[1..]) == left + [w] + ws[1..] by {
          assert Flatten(parts[1..]) == Flatten(parts)[|parts[0]|..];
        }
        GreedyAhead(ws[1..], size, [w], left, parts[1..]);
      } else {
        assert before + (cur + [w]) + ws[1..] == before + cur + ws;
        GreedyAhead(ws[1..], size, cur + [w], before, parts);
      }
    }
  }

  /** The packing loop uses the fewest buckets any order-preserving partition of that capacity can use. */
  lemma BucketCountMinimal(ws: seq<Weight>, size: nat, parts: seq<Bucket>)
    requires ws != []
    requires Flatten(parts) == ws
    requires forall p | p in parts :: |Bytes(p)| <= size
    ensures |Buckets(ws, size)| <= |parts|
  {
    assert [] + [] + ws == ws;
    GreedyAhead(ws, size, [], [], parts);
  }
}
