/** What the local actions of a rank keep: the sender's open and outstanding buckets, and a receiver's
    stock of buckets taken in. */
module TransferInvariant {
  import opened Arithmetic
  import opened Weights
  import opened Metadata
  import opened Transfer

  /** Facts about the bucket list the step lemmas use. */
  ghost predicate GoodBuckets(cfg: Config, bk: seq<Bucket>) {
    && |bk| >= 1
    && Flatten(bk) == cfg.ws
    && (forall i | 0 <= i < |bk| :: |Bytes(bk[i])| <= cfg.size)
  }

  lemma BucketsGood(cfg: Config)
    requires AllFit(cfg.ws, cfg.size)
    ensures GoodBuckets(cfg, Buckets(cfg.ws, cfg.size))
  {
    PackSound(cfg.ws, cfg.size, []);
    assert [] + cfg.ws == cfg.ws;
    var bk := Buckets(cfg.ws, cfg.size);
    forall i | 0 <= i < |bk| ensures |Bytes(bk[i])| <= cfg.size {
      assert bk[i] in bk;
    }
  }

  predicate SenderPcs(pc: Pc) {
    pc == Filling || pc == Draining || pc == Done
  }

  /** Rank 0: its buckets so far are the first `pub` ones, the open bucket lies in `send_buf`, and the
      outstanding bucket lies in the other slot. */
  ghost predicate SenderInv(cfg: Config, bk: seq<Bucket>, me: Rank) {
    && |me.a| == |me.b| == cfg.size
    && SenderPcs(me.pc)
    && me.read == NoRead && me.out == []
    && me.first <= me.next <= |cfg.ws|
    && me.pub <= |bk|
    && me.acked == (if me.op.Pub? then me.pub - 1 else me.pub)
    && (me.op.Pub? ==> me.pub > 0 && Holds(me.Buf(me.op.slot), bk[me.pub - 1]))
    && (me.pc == Filling ==>
          && me.pub < |bk|
          && (me.op.Pub? ==> me.op.slot == !me.cur)
          && Open(cfg, bk, me, cfg.ws[me.first..me.next]))
    && (me.pc != Filling ==> me.pub == |bk| && me.next == |cfg.ws|)
    && (me.pc == Draining && me.op == NoPub ==> me.acked == |bk|)
    && (me.pc == Done ==> me.op == NoPub)
  }

  ghost predicate Open(cfg: Config, bk: seq<Bucket>, me: Rank, open: Bucket)
    requires me.pub <= |bk| && me.next <= |cfg.ws|
  {
    && me.meta == DictMeta(open)
    && me.offset == |Bytes(open)|
    && Holds(me.Buf(me.cur), open)
    && bk[me.pub..] == Pack(cfg.ws[me.next..], cfg.size, open)
  }

  /** A receiver that has taken in `got` buckets: the last of them lies in `send_buf` with its metadata
      in hand, everything before it has been yielded, and a read fills `recv_buf` with the next one. */
  ghost predicate Stock(cfg: Config, bk: seq<Bucket>, me: Rank) {
    && |me.a| == |me.b| == cfg.size
    && me.got <= me.taken <= |bk|
    && me.taken <= me.got + 1
    && (me.got == 0 ==> me.out == [])
    && (me.got > 0 ==> InHand(bk, me))
    && (me.taken == me.got + 1 ==>
          && me.nmeta == DictMeta(bk[me.got])
          && me.nlast == (me.got + 1 == |bk|)
          && Arriving(me, Bytes(bk[me.got])))
    && ReadCounters(me)
  }

  ghost predicate InHand(bk: seq<Bucket>, me: Rank)
    requires 0 < me.got <= |bk|
  {
    && Holds(me.Buf(me.cur), bk[me.got - 1])
    && me.meta == DictMeta(bk[me.got - 1])
    && me.last == (me.got == |bk|)
    && me.yielded <= |me.meta|
    && me.out == ShownAll(bk[..me.got - 1]) + Shown(bk[me.got - 1])[..me.yielded]
  }

  ghost predicate ReadCounters(me: Rank) {
    && (me.read == NoRead ==> me.fetched == me.taken == me.got)
    && (me.read.Reading? ==> me.taken == me.got + 1 && me.fetched == me.got)
    && (me.read == ReadDone ==> me.fetched == me.taken == me.got + 1)
  }

  ghost predicate Arriving(me: Rank, bytes: seq<byte>) {
    && |bytes| <= |me.Buf(!me.cur)|
    && (me.read.Reading? ==>
          (forall i | i in me.read.copied :: i < |me.Buf(!me.cur)|) &&
          (forall i | i in me.read.copied && i < |bytes| :: me.Buf(!me.cur)[i] == bytes[i]))
    && (me.read == ReadDone ==> forall i | 0 <= i < |bytes| :: me.Buf(!me.cur)[i] == bytes[i])
  }

  // ----- the sender

  lemma FilledKeeps(cfg: Config, bk: seq<Bucket>, me: Rank)
    requires Ok(cfg) && SenderInv(cfg, bk, me) && me.pc == Filling && !MustFlush(cfg, me)
    ensures SenderInv(cfg, bk, Filled(cfg, me))
  {
    FilledOpen(cfg, bk, me);
  }

  lemma FilledOpen(cfg: Config, bk: seq<Bucket>, me: Rank)
    requires Ok(cfg) && SenderInv(cfg, bk, me) && me.pc == Filling && !MustFlush(cfg, me)
    ensures var me' := Filled(cfg, me);
            me'.next <= |cfg.ws| && Open(cfg, bk, me', cfg.ws[me'.first..me'.next])
  {
    var open, w := cfg.ws[me.first..me.next], cfg.ws[me.next];
    var me' := Filled(cfg, me);
    assert cfg.ws[me'.first..me'.next] == open + [w];
    BytesSnoc(open, w);
    DictSnoc(open, w);
    assert cfg.ws[me.next..][0] == w && cfg.ws[me.next..][1..] == cfg.ws[me'.next..];
    assert Open(cfg, bk, me', open + [w]);
  }

  /** The bucket handed out is the next one of the greedy packing. */
  lemma ClosedKeeps(cfg: Config, bk: seq<Bucket>, me: Rank, key: Key)
    requires Ok(cfg) && SenderInv(cfg, bk, me) && me.pc == Filling && MustFlush(cfg, me) && me.op == NoPub
    ensures SenderInv(cfg, bk, Closed(cfg, me, key))
    ensures Announcement(cfg, me, key) == Msg(key, me.cur, DictMeta(bk[me.pub]), me.pub + 1 == |bk|)
  {
    var open := cfg.ws[me.first..me.next];
    var rest := cfg.ws[me.next..];
    var me' := Closed(cfg, me, key);
    var tail := bk[me.pub..];
    if rest == [] {
      assert tail == [open];
      assert bk[me.pub] == open;
    } else {
      assert rest[0] == cfg.ws[me.next];
      assert tail == [open] + Pack(rest[1..], cfg.size, [rest[0]]);
      assert bk[me.pub] == tail[0] == open;
      assert bk[me.pub + 1..] == tail[1..];
      assert rest[0] in cfg.ws;
      assert Pack(rest, cfg.size, []) == Pack(rest[1..], cfg.size, [rest[0]]) by {
        assert [] + [rest[0]] == [rest[0]];
      }
      assert cfg.ws[me'.first..me'.next] == [];
      assert Open(cfg, bk, me', []);
    }
  }

  lemma SenderAckKeeps(cfg: Config, bk: seq<Bucket>, me: Rank)
    requires SenderInv(cfg, bk, me) && me.op.Pub?
    ensures SenderInv(cfg, bk, me.(op := NoPub, acked := me.acked + 1))
  {
    if me.pc == Filling {
      assert Open(cfg, bk, me.(op := NoPub, acked := me.acked + 1), cfg.ws[me.first..me.next]);
    }
  }

  // ----- the receivers

  lemma StockIgnores(cfg: Config, bk: seq<Bucket>, me: Rank, pc: Pc, op: Pub, pub: nat, acked: nat)
    requires Stock(cfg, bk, me)
    ensures Stock(cfg, bk, me.(pc := pc, op := op, pub := pub, acked := acked))
  {
    var me' := me.(pc := pc, op := op, pub := pub, acked := acked);
    assert me.got > 0 ==> InHand(bk, me');
    assert me.taken == me.got + 1 ==> Arriving(me', Bytes(bk[me.got]));
  }

  lemma BegunKeeps(cfg: Config, bk: seq<Bucket>, me: Rank, m: Msg, pc: Pc)
    requires GoodBuckets(cfg, bk) && Stock(cfg, bk, me) && me.read == NoRead
    requires me.taken < |bk| && m.meta == DictMeta(bk[me.taken]) && m.last == (me.taken + 1 == |bk|)
    ensures Stock(cfg, bk, Begun(me, m).(pc := pc))
  {
    assert |Bytes(bk[me.taken])| <= cfg.size;
  }

  lemma CopiedKeeps(cfg: Config, bk: seq<Bucket>, me: Rank, src: seq<byte>, i: nat)
    requires Stock(cfg, bk, me) && me.read.Reading? && i < cfg.size && Holds(src, bk[me.got])
    ensures Stock(cfg, bk, Copied(me, src, i))
  {
    var bytes := Bytes(bk[me.got]);
    var me' := Copied(me, src, i);
    assert me'.Buf(me'.cur) == me.Buf(me.cur);
    assert i < |bytes| ==> src[i] == src[..|bytes|][i] == bytes[i];
    assert Arriving(me', bytes);
  }

  lemma CompletedKeeps(cfg: Config, bk: seq<Bucket>, me: Rank)
    requires Stock(cfg, bk, me) && me.read.Reading? && forall i | 0 <= i < cfg.size :: i in me.read.copied
    ensures Stock(cfg, bk, Completed(me))
  {
    assert Arriving(Completed(me), Bytes(bk[me.got]));
  }

  lemma SwappedKeeps(cfg: Config, bk: seq<Bucket>, me: Rank, pc: Pc)
    requires Stock(cfg, bk, me) && me.read == ReadDone && (me.got > 0 ==> me.yielded == |me.meta|)
    ensures Stock(cfg, bk, Swapped(me, pc))
  {
    SwappedHolds(cfg, bk, me, pc);
    SwappedOut(cfg, bk, me);
  }

  lemma SwappedHolds(cfg: Config, bk: seq<Bucket>, me: Rank, pc: Pc)
    requires Stock(cfg, bk, me) && me.read == ReadDone
    ensures me.got < |bk| && var me' := Swapped(me, pc); Holds(me'.Buf(me'.cur), bk[me.got])
  {
    var me' := Swapped(me, pc);
    assert me'.Buf(me'.cur)[..|Bytes(bk[me.got])|] == Bytes(bk[me.got]);
  }

  lemma SwappedOut(cfg: Config, bk: seq<Bucket>, me: Rank)
    requires Stock(cfg, bk, me) && me.read == ReadDone && (me.got > 0 ==> me.yielded == |me.meta|)
    ensures me.got < |bk| && me.out == ShownAll(bk[..me.got]) + Shown(bk[me.got])[..0]
  {
    if me.got > 0 {
      assert bk[..me.got] == bk[..me.got - 1] + [bk[me.got - 1]];
      ShownAllSnoc(bk[..me.got - 1], bk[me.got - 1]);
      assert Shown(bk[me.got - 1])[..me.yielded] == Shown(bk[me.got - 1]);
    }
  }

  /** What a receiver yields next is the next weight its bucket shows. */
  lemma YieldsWeight(me: Rank, b: Bucket)
    requires Holds(me.Buf(me.cur), b) && me.meta == DictMeta(b) && me.yielded < |me.meta|
    ensures Yielded(me).out == me.out + [Shown(b)[me.yielded]]
  {
    ViewShows(me.Buf(me.cur), b, me.yielded);
  }

  lemma YieldedKeeps(cfg: Config, bk: seq<Bucket>, me: Rank)
    requires Stock(cfg, bk, me) && me.got > 0 && me.yielded < |me.meta|
    ensures Stock(cfg, bk, Yielded(me))
  {
    var b, k := bk[me.got - 1], me.yielded;
    YieldsWeight(me, b);
    var shown := Shown(b);
    assert shown[..k + 1] == shown[..k] + [shown[k]];
    assert Yielded(me) == me.(out := me.out + [shown[k]], yielded := k + 1);
  }

  /** What is shown before, in and behind bucket g - 1 makes up all that is shown. */
  lemma StreamAround(bk: seq<Bucket>, g: nat, y: nat)
    requires 0 < g <= |bk| && y <= |Shown(bk[g - 1])|
    ensures ShownAll(bk) ==
            ShownAll(bk[..g - 1]) + Shown(bk[g - 1])[..y] + (Shown(bk[g - 1])[y..] + ShownAll(bk[g..]))
  {
    assert bk == bk[..g] + bk[g..];
    ShownAllConcat(bk[..g], bk[g..]);
    assert bk[..g] == bk[..g - 1] + [bk[g - 1]];
    ShownAllSnoc(bk[..g - 1], bk[g - 1]);
    Regroup(ShownAll(bk[..g - 1]), Shown(bk[g - 1]), ShownAll(bk[g..]), y);
  }

  lemma Regroup<T>(before: seq<T>, s: seq<T>, after: seq<T>, y: nat)
    requires y <= |s|
    ensures before + s + after == before + s[..y] + (s[y..] + after)
  {
    assert s == s[..y] + s[y..];
  }

  /** A receiver has yielded a prefix of what the buckets show; all of it after the last entry of the last. */
  lemma StockYieldsPrefix(cfg: Config, bk: seq<Bucket>, me: Rank)
    requires Stock(cfg, bk, me)
    ensures me.out <= ShownAll(bk)
    ensures me.got > 0 && me.last && me.yielded == |me.meta| ==> me.out == ShownAll(bk)
  {
    if me.got > 0 {
      var g, y := me.got, me.yielded;
      StreamAround(bk, g, y);
      assert me.out == ShownAll(bk[..g - 1]) + Shown(bk[g - 1])[..y];
      if me.last && y == |me.meta| {
        assert Shown(bk[g - 1])[y..] == [] && bk[g..] == [];
      }
    }
  }

  /** No more is yielded than was sent, and a finished receiver has the stream itself exactly when no
      bucket has two weights of one name. */
  lemma StockVersusStream(cfg: Config, bk: seq<Bucket>, me: Rank)
    requires GoodBuckets(cfg, bk) && Stock(cfg, bk, me)
    ensures |me.out| <= |cfg.ws|
    ensures NamesApart(bk) ==> me.out <= cfg.ws
    ensures me.got > 0 && me.last && me.yielded == |me.meta| ==> (me.out == cfg.ws <==> NamesApart(bk))
  {
    StockYieldsPrefix(cfg, bk, me);
    ShownAllIsStreamIff(bk);
  }

  // ----- the length of a read

  function Uncopied(size: nat, read: Read): int {
    if read.Reading? then size - |read.copied| else 0
  }

  lemma {:induction false} CardinalityBound(s: set<nat>, n: nat)
    requires forall i | i in s :: i < n
    ensures |s| <= n
  {
    if n == 0 {
      assert s == {};
    } else {
      CardinalityBound(s - {n - 1}, n - 1);
      assert s <= (s - {n - 1}) + {n - 1};
    }
  }

  lemma UncopiedPositive(cfg: Config, bk: seq<Bucket>, me: Rank)
    requires Stock(cfg, bk, me)
    ensures Uncopied(cfg.size, me.read) >= 0
  {
    if me.read.Reading? {
      CardinalityBound(me.read.copied, cfg.size);
    }
  }

  /** Taking a bucket costs `size + 1` steps of reading, each copied byte pays one of them back. */
  function ReadWork(cfg: Config, k: nat, me: Rank): int {
    (k - me.taken) * (cfg.size + 1) + Uncopied(cfg.size, me.read) + (k - me.fetched)
  }

  lemma BegunWorks(cfg: Config, k: nat, me: Rank, m: Msg, pc: Pc)
    requires me.read == NoRead
    ensures ReadWork(cfg, k, Begun(me, m).(pc := pc)) == ReadWork(cfg, k, me) - 1
  {
    assert (k - (me.taken + 1)) * (cfg.size + 1) == (k - me.taken) * (cfg.size + 1) - (cfg.size + 1);
  }

  lemma CopiedWorks(cfg: Config, k: nat, me: Rank, src: seq<byte>, i: nat)
    requires me.read.Reading? && i !in me.read.copied
    ensures ReadWork(cfg, k, Copied(me, src, i)) == ReadWork(cfg, k, me) - 1
  {
    assert |me.read.copied + {i}| == |me.read.copied| + 1;
  }

  lemma CompletedWorks(cfg: Config, bk: seq<Bucket>, me: Rank)
    requires Stock(cfg, bk, me) && me.read.Reading?
    ensures ReadWork(cfg, |bk|, Completed(me)) < ReadWork(cfg, |bk|, me)
  {
    UncopiedPositive(cfg, bk, me);
  }

  lemma ReadWorkPositive(cfg: Config, bk: seq<Bucket>, me: Rank)
    requires Stock(cfg, bk, me)
    ensures ReadWork(cfg, |bk|, me) >= 0
  {
    UncopiedPositive(cfg, bk, me);
    MulNonNegative(|bk| - me.taken, cfg.size + 1);
  }
}
