/** What one rank of a weight transfer holds, and what it does on its own: the sender packs and closes
    buckets, a receiver takes in, yields and swaps. Both engines with two buffers are built from this. */
module Transfer {
  import opened Weights
  import opened Metadata

  type Key = seq<byte>

  datatype Config = Config(ws: seq<Weight>, size: nat, n: nat)

  /** What the engine's own asserts demand. */
  predicate Ok(cfg: Config) {
    cfg.n >= 2 && AllFit(cfg.ws, cfg.size)
  }

  datatype Pc =
    | Filling | Draining
    | FirstMeta | FirstRead | Publishing | NextMeta | Yielding
    | Done | Failed

  /** An outstanding publication: its notify key and the slot whose descriptors were sent. */
  datatype Pub = NoPub | Pub(key: Key, slot: bool)

  /** A read of the predecessor's slot; bytes arrive one by one, in any order. */
  datatype Read = NoRead | Reading(key: Key, slot: bool, copied: set<nat>) | ReadDone

  datatype Msg = Msg(key: Key, slot: bool, meta: seq<Entry>, last: bool)

  /** `cur` names the slot called `send_buf`; the other slot is `recv_buf`. The fields from `first` on
      are history: no step tests them. */
  datatype Rank = Rank(
    a: seq<byte>, b: seq<byte>, cur: bool, pc: Pc,
    next: nat, offset: nat,
    meta: seq<Entry>, last: bool, nmeta: seq<Entry>, nlast: bool,
    yielded: nat, op: Pub, read: Read, out: seq<Weight>,
    first: nat, pub: nat, acked: nat, taken: nat, fetched: nat, got: nat)
  {
    function Buf(slot: bool): seq<byte> {
      if slot then b else a
    }

    function WithBuf(slot: bool, s: seq<byte>): (r: Rank)
      ensures r.Buf(slot) == s && r.Buf(!slot) == Buf(!slot)
      ensures r == this.(a := r.a, b := r.b)
    {
      if slot then this.(b := s) else this.(a := s)
    }
  }

  function Blank(a: seq<byte>, b: seq<byte>, pc: Pc): Rank {
    Rank(a, b, false, pc, 0, 0, [], false, [], false, 0, NoPub, NoRead, [], 0, 0, 0, 0, 0, 0)
  }

  /** The bucket must go out: the next weight does not fit, or there is none. */
  predicate MustFlush(cfg: Config, me: Rank) {
    me.next >= |cfg.ws| || me.offset + |cfg.ws[me.next].bytes| > cfg.size
  }

  predicate AllYielded(me: Rank) {
    me.pc == Yielding && me.yielded == |me.meta|
  }

  function Poke(s: seq<byte>, i: nat, x: byte): (t: seq<byte>)
    ensures |t| == |s|
  {
    if i < |s| then s[i := x] else s
  }

  /** Python's slice assignment of equal length, at an offset the engine has just asserted. */
  function Write(s: seq<byte>, at: nat, bytes: seq<byte>): (t: seq<byte>)
    ensures |t| == |s|
  {
    if at + |bytes| <= |s| then s[..at] + bytes + s[at + |bytes|..] else s
  }

  /** The sender copies one more weight behind the open bucket. */
  function Filled(cfg: Config, me: Rank): Rank
    requires !MustFlush(cfg, me)
  {
    var w := cfg.ws[me.next];
    me.WithBuf(me.cur, Write(me.Buf(me.cur), me.offset, w.bytes))
      .(meta := Put(me.meta, Entry(w.name, me.offset, |w.bytes|)),
        offset := me.offset + |w.bytes|, next := me.next + 1)
  }

  /** The message that announces the open bucket. */
  function Announcement(cfg: Config, me: Rank, key: Key): Msg {
    Msg(key, me.cur, me.meta, me.next >= |cfg.ws|)
  }

  /** The sender hands the open bucket out and, unless it was the last, turns to the other buffer. */
  function Closed(cfg: Config, me: Rank, key: Key): Rank {
    var me' := me.(op := Pub(key, me.cur), pub := me.pub + 1);
    if me.next >= |cfg.ws| then me'.(pc := Draining)
    else me'.(cur := !me.cur, meta := [], offset := 0, first := me.next)
  }

  /** A receiver has the metadata `m` and starts to read into `recv_buf`. */
  function Begun(me: Rank, m: Msg): Rank {
    me.(nmeta := m.meta, nlast := m.last, read := Reading(m.key, m.slot, {}), taken := me.taken + 1)
  }

  /** Byte i of the source has arrived in `recv_buf`. */
  function Copied(me: Rank, src: seq<byte>, i: nat): Rank
    requires me.read.Reading?
  {
    me.WithBuf(!me.cur, if i < |src| then Poke(me.Buf(!me.cur), i, src[i]) else me.Buf(!me.cur))
      .(read := me.read.(copied := me.read.copied + {i}))
  }

  function Completed(me: Rank): Rank {
    me.(read := ReadDone, fetched := me.fetched + 1)
  }

  /** The receiver swaps: what was read is now what it yields from. */
  function Swapped(me: Rank, pc: Pc): Rank {
    me.(cur := !me.cur, meta := me.nmeta, last := me.nlast, read := NoRead, yielded := 0, pc := pc, got := me.got + 1)
  }

  function Yielded(me: Rank): Rank
    requires me.yielded < |me.meta|
  {
    var e := me.meta[me.yielded];
    me.(out := me.out + [Weight(e.name, View(me.Buf(me.cur), e))], yielded := me.yielded + 1)
  }
}
