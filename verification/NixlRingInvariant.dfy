/** What every step of the ring keeps: one predicate per rank, one per link between neighbours. */
module NixlRingInvariant {
  import opened Weights
  import opened Metadata
  import opened Transfer
  import opened TransferInvariant
  import opened NixlRing

  predicate ReceiverPcs(pc: Pc) {
    pc == Done || !(SenderPcs(pc) || pc == Failed)
  }

  ghost predicate ReceiverInv(cfg: Config, bk: seq<Bucket>, hasNext: bool, me: Rank) {
    ReceiverPcs(me.pc) && Counters(me, hasNext) && Stock(cfg, bk, me)
  }

  /** How the counters follow the program counter. */
  ghost predicate Counters(me: Rank, hasNext: bool) {
    && (me.pc == FirstMeta ==> me.got == me.taken == 0)
    && (me.pc == FirstRead ==> me.got == 0 && me.taken == 1)
    && (me.pc == FirstMeta || me.pc == FirstRead <==> me.got == 0)
    && (me.got == 0 ==> me.pub == 0)
    && (me.pc == Publishing ==> me.pub == me.got - 1 && me.taken == me.got)
    && (me.pc == NextMeta || me.pc == Yielding || me.pc == Done ==> me.pub == me.got)
    && (me.pc == NextMeta ==> !me.last && me.taken == me.got)
    && (me.pc == Yielding ==> me.taken == if me.last then me.got else me.got + 1)
    && (me.pc == Done ==> me.last && me.taken == me.got && me.yielded == |me.meta|)
    && (me.pc == Publishing || me.pc == NextMeta ==> me.yielded == 0)
    && me.acked == (if me.op.Pub? then me.pub - 1 else me.pub)
    && (me.op.Pub? ==> hasNext && me.pub > 0 && me.op.slot == me.cur && (me.pc == NextMeta || me.pc == Yielding))
  }

  ghost predicate RankInv(cfg: Config, bk: seq<Bucket>, r: nat, me: Rank) {
    if r == 0 then SenderInv(cfg, bk, me) else ReceiverInv(cfg, bk, r + 1 < cfg.n, me)
  }

  /** Upstream rank u, messages q to its successor d, notifications nq back: at most one publication
      is outstanding, and it is in exactly one place. */
  ghost predicate Link(bk: seq<Bucket>, u: Rank, q: seq<Msg>, nq: seq<Notif>, down: nat, d: Rank) {
    && u.acked <= d.fetched <= d.taken <= u.pub <= u.acked + 1
    && (u.op.Pub? <==> u.pub == u.acked + 1)
    && |q| == u.pub - d.taken
    && |nq| == d.fetched - u.acked
    && u.pub <= |bk|
    && (q != [] ==> q[0] == Msg(u.op.key, u.op.slot, DictMeta(bk[u.pub - 1]), u.pub == |bk|))
    && (nq != [] ==> nq[0] == Notif(down, u.op.key))
    && (d.read.Reading? ==> d.taken == d.fetched + 1 && u.op.Pub? && d.read.key == u.op.key && d.read.slot == u.op.slot)
  }

  ghost predicate LinkAt(cfg: Config, bk: seq<Bucket>, s: State, r: nat)
    requires Shaped(cfg, s) && 0 < r < cfg.n
  {
    Link(bk, s.ranks[r - 1], s.msgs[r], s.notifs[r - 1], r, s.ranks[r])
  }

  ghost predicate Inv(cfg: Config, s: State) {
    var bk := Buckets(cfg.ws, cfg.size);
    && Shaped(cfg, s)
    && (forall r: nat | r < cfg.n :: RankInv(cfg, bk, r, s.ranks[r]))
    && (forall r: nat | 0 < r < cfg.n :: LinkAt(cfg, bk, s, r))
  }

  lemma InitInv(cfg: Config, s: State)
    requires Ok(cfg) && Init(cfg, s)
    ensures Inv(cfg, s)
  {
    BucketsGood(cfg);
    var bk := Buckets(cfg.ws, cfg.size);
    forall r: nat | r < cfg.n ensures RankInv(cfg, bk, r, s.ranks[r]) {
      if r == 0 {
        assert cfg.ws[0..] == cfg.ws;
        assert Open(cfg, bk, s.ranks[0], []);
      }
    }
  }
}
