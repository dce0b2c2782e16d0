/** The packing loop of `send_weights`, in place on the two buffers, and the metadata dictionary it builds. */
module SendLoop {
  import opened Weights
  import opened Metadata

  /** What one publication announces, with the bytes its buffer holds at that moment. */
  datatype Published = Published(meta: seq<Entry>, last: bool, image: seq<byte>)

  /** Publication j announces bucket j of the greedy packing and its buffer holds that bucket. */
  ghost predicate Announces(sent: seq<Published>, bk: seq<Bucket>) {
    |sent| <= |bk| && forall j | 0 <= j < |sent| :: sent[j].meta == DictMeta(bk[j]) && Holds(sent[j].image, bk[j])
  }

  /** Before weight i: the publications so far are the first buckets, none of them marked last, and the
      open bucket with the weights from i on packs into the other buckets. */
  ghost predicate Sending(ws: seq<Weight>, i: nat, size: nat, open: Bucket, bk: seq<Bucket>, sent: seq<Published>)
    requires i <= |ws|
  {
    && |sent| < |bk| && bk[|sent|..] == Pack(ws[i..], size, open)
    && Announces(sent, bk) && forall j | 0 <= j < |sent| :: !sent[j].last
  }

  lemma Flushes(ws: seq<Weight>, i: nat, size: nat, open: Bucket, bk: seq<Bucket>, sent: seq<Published>, p: Published)
    requires i < |ws| && Sending(ws, i, size, open, bk, sent) && |Bytes(open)| + |ws[i].bytes| > size
    requires p.meta == DictMeta(open) && Holds(p.image, open) && !p.last
    ensures Sending(ws, i + 1, size, [] + [ws[i]], bk, sent + [p])
  {
    var rest, k := ws[i..], |sent|;
    assert rest[0] == ws[i] && rest[1..] == ws[i + 1..];
    assert bk[k..][0] == bk[k] && bk[k..][1..] == bk[k + 1..];
    assert [] + [ws[i]] == [ws[i]];
  }

  lemma Fills(ws: seq<Weight>, i: nat, size: nat, open: Bucket, bk: seq<Bucket>, sent: seq<Published>)
    requires i < |ws| && Sending(ws, i, size, open, bk, sent) && |Bytes(open)| + |ws[i].bytes| <= size
    ensures Sending(ws, i + 1, size, open + [ws[i]], bk, sent)
  {
    var rest := ws[i..];
    assert rest[0] == ws[i] && rest[1..] == ws[i + 1..];
  }

  lemma Ends(ws: seq<Weight>, size: nat, open: Bucket, bk: seq<Bucket>, sent: seq<Published>, p: Published)
    requires Sending(ws, |ws|, size, open, bk, sent) && p.meta == DictMeta(open) && Holds(p.image, open) && p.last
    ensures Announces(sent + [p], bk) && |sent + [p]| == |bk|
    ensures forall j | 0 <= j < |bk| :: (sent + [p])[j].last <==> j == |bk| - 1
  {
    assert bk[|sent|..] == [open] && bk[|sent|..][0] == bk[|sent|];
  }

  /** `send_buf[offset : offset + nbytes].copy_(...)` */
  method CopyInto(buf: array<byte>, offset: nat, bytes: seq<byte>)
    requires offset + |bytes| <= buf.Length
    modifies buf
    ensures buf[..] == old(buf[..offset]) + bytes + old(buf[offset + |bytes|..])
  {
    forall k | 0 <= k < |bytes| {
      buf[offset + k] := bytes[k];
    }
  }

  /** The loop over the weights. It fails exactly when some weight is larger than a bucket; otherwise it
      publishes the buckets of the greedy packing, in order, and marks the last one only. */
  method SendWeights(ws: seq<Weight>, size: nat, buf0: array<byte>, buf1: array<byte>)
    returns (ok: bool, sent: seq<Published>)
    requires buf0 != buf1 && buf0.Length == buf1.Length == size
    modifies buf0, buf1
    ensures ok <==> AllFit(ws, size)
    ensures ok ==> Announces(sent, Buckets(ws, size)) && |sent| == |Buckets(ws, size)|
    ensures ok ==> forall j | 0 <= j < |sent| :: sent[j].last <==> j == |sent| - 1
  {
    var sendBuf, recvBuf := buf0, buf1;
    var meta: seq<Entry> := [];
    var offset: nat := 0;
    sent := [];
    ghost var bk := Buckets(ws, size);
    ghost var open: Bucket := [];
    assert ws[0..] == ws;
    for i := 0 to |ws|
      invariant (sendBuf == buf0 && recvBuf == buf1) || (sendBuf == buf1 && recvBuf == buf0)
      invariant forall j | 0 <= j < i :: |ws[j].bytes| <= size
      invariant offset == |Bytes(open)| <= size && meta == DictMeta(open)
      invariant sendBuf[..offset] == Bytes(open)
      invariant Sending(ws, i, size, open, bk, sent)
    {
      var w := ws[i];
      if offset + |w.bytes| > size {
        Flushes(ws, i, size, open, bk, sent, Published(meta, false, sendBuf[..]));
        sent := sent + [Published(meta, false, sendBuf[..])];
        sendBuf, recvBuf := recvBuf, sendBuf;
        meta, offset, open := [], 0, [];
      } else {
        Fills(ws, i, size, open, bk, sent);
      }
      if offset + |w.bytes| > size {
        assert w in ws;
        return false, sent;
      }
      BytesSnoc(open, w);
      DictSnoc(open, w);
      meta := Put(meta, Entry(w.name, offset, |w.bytes|));
      CopyInto(sendBuf, offset, w.bytes);
      offset, open := offset + |w.bytes|, open + [w];
    }
    Ends(ws, size, open, bk, sent, Published(meta, true, sendBuf[..]));
    sent := sent + [Published(meta, true, sendBuf[..])];
    ok := true;
  }
}
