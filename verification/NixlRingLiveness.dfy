/** No deadlock, and no endless run. */
module NixlRingLiveness {
  import opened Weights
  import opened Transfer
  import opened TransferInvariant
  import opened NixlRing
  import opened NixlRingInvariant
  import opened NixlRingSteps

  predicate WaitsForMeta(me: Rank, q: seq<Msg>) {
    (me.pc == FirstMeta || me.pc == NextMeta) && q == []
  }

  predicate WaitsForAck(me: Rank, nq: seq<Notif>) {
    me.op.Pub? && nq == [] && !me.read.Reading? && me.pc != FirstMeta && me.pc != NextMeta
  }

  ghost predicate CanMove(cfg: Config, s: State, r: nat) {
    exists act :: Can(cfg, s, r, act)
  }

  ghost predicate Idle(cfg: Config, r: nat, me: Rank, q: seq<Msg>, nq: seq<Notif>) {
    forall act :: !Enabled(cfg, r, me, q, nq, act)
  }

  lemma SenderMovesOrWaits(cfg: Config, bk: seq<Bucket>, me: Rank, q: seq<Msg>, nq: seq<Notif>)
    requires SenderInv(cfg, bk, me) && Idle(cfg, 0, me, q, nq)
    ensures me.pc == Done || WaitsForAck(me, nq)
  {
    assert !Enabled(cfg, 0, me, q, nq, Fill);
    assert !Enabled(cfg, 0, me, q, nq, Publish([]));
    assert !Enabled(cfg, 0, me, q, nq, Ack);
    assert !Enabled(cfg, 0, me, q, nq, Finish);
  }

  /** A read under way can always go on. */
  lemma ReadsGoOn(cfg: Config, r: nat, me: Rank, q: seq<Msg>, nq: seq<Notif>)
    requires Idle(cfg, r, me, q, nq)
    ensures !me.read.Reading?
  {
    if me.read.Reading? {
      if i: nat :| i < cfg.size && i !in me.read.copied {
        assert Enabled(cfg, r, me, q, nq, Copy(i));
      } else {
        assert Enabled(cfg, r, me, q, nq, Complete);
      }
    }
  }

  lemma ReceiverMovesOrWaits(cfg: Config, r: nat, hasNext: bool, me: Rank, q: seq<Msg>, nq: seq<Notif>)
    requires ReceiverPcs(me.pc) && Counters(me, hasNext) && ReadCounters(me)
    requires me.got > 0 ==> me.yielded <= |me.meta|
    requires Idle(cfg, r, me, q, nq)
    ensures me.pc == Done || WaitsForMeta(me, q) || WaitsForAck(me, nq)
  {
    ReadsGoOn(cfg, r, me, q, nq);
    assert !Enabled(cfg, r, me, q, nq, TakeFirst);
    assert !Enabled(cfg, r, me, q, nq, SwapFirst);
    assert !Enabled(cfg, r, me, q, nq, Publish([]));
    assert !Enabled(cfg, r, me, q, nq, Take);
    assert !Enabled(cfg, r, me, q, nq, Yield);
    assert !Enabled(cfg, r, me, q, nq, Ack);
    assert !Enabled(cfg, r, me, q, nq, Finish);
    assert !Enabled(cfg, r, me, q, nq, Swap);
  }

  /** A rank that cannot move is done, or waits for its predecessor, or waits for its successor. */
  lemma MovesOrWaits(cfg: Config, s: State, r: nat)
    requires Inv(cfg, s) && r < cfg.n && !CanMove(cfg, s, r)
    ensures !s.ranks[r].read.Reading?
    ensures s.ranks[r].pc == Done || WaitsForMeta(s.ranks[r], s.msgs[r]) || WaitsForAck(s.ranks[r], s.notifs[r])
  {
    var me, q, nq := s.ranks[r], s.msgs[r], s.notifs[r];
    forall act ensures !Enabled(cfg, r, me, q, nq, act) {
      assert !Can(cfg, s, r, act);
    }
    ReadsGoOn(cfg, r, me, q, nq);
    assert RankInv(cfg, Buckets(cfg.ws, cfg.size), r, me);
    if r == 0 {
      SenderMovesOrWaits(cfg, Buckets(cfg.ws, cfg.size), me, q, nq);
    } else {
      ReceiverMovesOrWaits(cfg, r, r + 1 < cfg.n, me, q, nq);
    }
  }

  /** A wait for a notification leaves a message for the successor, which then is not done either. */
  lemma AckWaitPassesOn(cfg: Config, bk: seq<Bucket>, u: Rank, q: seq<Msg>, nq: seq<Notif>, r: nat, d: Rank)
    requires r > 0 && RankInv(cfg, bk, r, d) && Link(bk, u, q, nq, r, d)
    requires WaitsForAck(u, nq) && !d.read.Reading?
    ensures d.pc != Done && q != []
  {
    assert d.fetched == d.taken;
  }

  lemma LastAwaitsNobody(cfg: Config, bk: seq<Bucket>, me: Rank)
    requires cfg.n >= 2 && RankInv(cfg, bk, cfg.n - 1, me)
    ensures me.op == NoPub
  {
  }

  /** When nobody can move, nobody waits for a notification: the wait would pass down to the last rank. */
  lemma {:induction false} NobodyAwaitsAck(cfg: Config, s: State, r: nat)
    requires Ok(cfg) && Inv(cfg, s) && r < cfg.n && forall k: nat | k < cfg.n :: !CanMove(cfg, s, k)
    ensures !WaitsForAck(s.ranks[r], s.notifs[r])
    decreases cfg.n - r
  {
    var bk := Buckets(cfg.ws, cfg.size);
    if r + 1 == cfg.n {
      LastAwaitsNobody(cfg, bk, s.ranks[r]);
    } else if WaitsForAck(s.ranks[r], s.notifs[r]) {
      MovesOrWaits(cfg, s, r + 1);
      NobodyAwaitsAck(cfg, s, r + 1);
      assert LinkAt(cfg, bk, s, r + 1);
      AckWaitPassesOn(cfg, bk, s.ranks[r], s.msgs[r + 1], s.notifs[r], r + 1, s.ranks[r + 1]);
    }
  }

  lemma {:induction false} NobodyMovesAllDone(cfg: Config, s: State, r: nat)
    requires Ok(cfg) && Inv(cfg, s) && r < cfg.n && forall k: nat | k < cfg.n :: !CanMove(cfg, s, k)
    ensures s.ranks[r].pc == Done
  {
    var bk := Buckets(cfg.ws, cfg.size);
    MovesOrWaits(cfg, s, r);
    NobodyAwaitsAck(cfg, s, r);
    assert RankInv(cfg, bk, r, s.ranks[r]);
    if r > 0 {
      NobodyMovesAllDone(cfg, s, r - 1);
      assert RankInv(cfg, bk, r - 1, s.ranks[r - 1]);
      assert LinkAt(cfg, bk, s, r);
    }
  }

  // ----- termination

  /** What rank r still has to do, counted in steps. */
  function Work(cfg: Config, k: nat, r: nat, me: Rank): int {
    var flag := if me.pc == Done then 0 else 1;
    if r == 0 then
      (|cfg.ws| - me.next) + (k - me.pub) + (k - me.acked) + flag
    else
      ReadWork(cfg, k, me) + (k - me.got) + (k - me.pub) + (k - me.acked) + (|cfg.ws| - |me.out|) + flag
  }

  function Total(cfg: Config, k: nat, ranks: seq<Rank>): int {
    if ranks == [] then 0
    else Total(cfg, k, ranks[..|ranks| - 1]) + Work(cfg, k, |ranks| - 1, ranks[|ranks| - 1])
  }

  lemma {:induction false} TotalUpdate(cfg: Config, k: nat, ranks: seq<Rank>, r: nat, me: Rank)
    requires r < |ranks|
    ensures Total(cfg, k, ranks[r := me]) == Total(cfg, k, ranks) - Work(cfg, k, r, ranks[r]) + Work(cfg, k, r, me)
  {
    var n := |ranks| - 1;
    if r < n {
      TotalUpdate(cfg, k, ranks[..n], r, me);
      assert ranks[r := me][..n] == ranks[..n][r := me];
    } else {
      assert ranks[r := me][..n] == ranks[..n];
    }
  }

  lemma WorkPositive(cfg: Config, bk: seq<Bucket>, r: nat, me: Rank)
    requires GoodBuckets(cfg, bk) && RankInv(cfg, bk, r, me)
    ensures Work(cfg, |bk|, r, me) >= 0
  {
    if r > 0 {
      assert |me.out| <= |cfg.ws| by { StockVersusStream(cfg, bk, me); }
      ReadWorkPositive(cfg, bk, me);
      assert me.got <= |bk| && me.pub <= |bk| && me.acked <= |bk|;
    }
  }

  lemma {:induction false} TotalPositive(cfg: Config, bk: seq<Bucket>, ranks: seq<Rank>)
    requires GoodBuckets(cfg, bk) && |ranks| <= cfg.n && forall r: nat | r < |ranks| :: RankInv(cfg, bk, r, ranks[r])
    ensures Total(cfg, |bk|, ranks) >= 0
  {
    if ranks != [] {
      TotalPositive(cfg, bk, ranks[..|ranks| - 1]);
      WorkPositive(cfg, bk, |ranks| - 1, ranks[|ranks| - 1]);
    }
  }

  lemma SenderMoveWorks(cfg: Config, bk: seq<Bucket>, me: Rank, q: seq<Msg>, nq: seq<Notif>, src: seq<byte>, act: Act)
    requires SenderInv(cfg, bk, me) && Enabled(cfg, 0, me, q, nq, act)
    requires act.Ack? ==> nq[0].key == me.op.key
    ensures Work(cfg, |bk|, 0, Move(cfg, 0, me, q, nq, src, act).me) < Work(cfg, |bk|, 0, me)
  {
  }

  lemma ReadMoveWorks(cfg: Config, bk: seq<Bucket>, r: nat, me: Rank, q: seq<Msg>, nq: seq<Notif>,
                      src: seq<byte>, act: Act)
    requires r > 0 && Enabled(cfg, r, me, q, nq, act) && Stock(cfg, bk, me)
    requires act.TakeFirst? || act.Take? || act.Copy? || act.Complete?
    requires act.TakeFirst? || act.Take? ==> me.read == NoRead
    ensures Work(cfg, |bk|, r, Move(cfg, r, me, q, nq, src, act).me) < Work(cfg, |bk|, r, me)
  {
    match act
    case TakeFirst => BegunWorks(cfg, |bk|, me, q[0], FirstRead);
    case Take => BegunWorks(cfg, |bk|, me, q[0], Yielding);
    case Copy(i) => CopiedWorks(cfg, |bk|, me, src, i);
    case Complete => CompletedWorks(cfg, bk, me);
  }

  lemma OtherWorks(cfg: Config, bk: seq<Bucket>, r: nat, me: Rank, q: seq<Msg>, nq: seq<Notif>,
                   src: seq<byte>, act: Act)
    requires r > 0 && RankInv(cfg, bk, r, me) && Enabled(cfg, r, me, q, nq, act)
    requires !(act.TakeFirst? || act.Take? || act.Copy? || act.Complete?)
    requires act.Ack? ==> nq[0].key == me.op.key
    ensures Work(cfg, |bk|, r, Move(cfg, r, me, q, nq, src, act).me) < Work(cfg, |bk|, r, me)
  {
    var me' := Move(cfg, r, me, q, nq, src, act).me;
    assert me'.taken == me.taken && me'.fetched == me.fetched;
    assert Uncopied(cfg.size, me'.read) <= Uncopied(cfg.size, me.read);
  }

  /** Every action brings its rank nearer to its end. */
  lemma MoveWorks(cfg: Config, bk: seq<Bucket>, r: nat, me: Rank, q: seq<Msg>, nq: seq<Notif>, src: seq<byte>, act: Act)
    requires r < cfg.n && RankInv(cfg, bk, r, me) && Enabled(cfg, r, me, q, nq, act)
    requires act.Ack? ==> nq[0].key == me.op.key
    ensures Work(cfg, |bk|, r, Move(cfg, r, me, q, nq, src, act).me) < Work(cfg, |bk|, r, me)
  {
    if r == 0 {
      SenderMoveWorks(cfg, bk, me, q, nq, src, act);
    } else if act.TakeFirst? || act.Take? || act.Copy? || act.Complete? {
      ReadMoveWorks(cfg, bk, r, me, q, nq, src, act);
    } else {
      OtherWorks(cfg, bk, r, me, q, nq, src, act);
    }
  }

  lemma StepWorks(cfg: Config, s: State, r: nat, act: Act)
    requires Ok(cfg) && Inv(cfg, s) && Can(cfg, s, r, act)
    ensures var k := |Buckets(cfg.ws, cfg.size)|;
            Total(cfg, k, Step(cfg, s, r, act).ranks) < Total(cfg, k, s.ranks)
  {
    var bk := Buckets(cfg.ws, cfg.size);
    NearAt(cfg, s, r);
    if act.Ack? {
      AckMatches(cfg, bk, s, r);
    }
    MoveWorks(cfg, bk, r, s.ranks[r], s.msgs[r], s.notifs[r], Source(s, r), act);
    TotalUpdate(cfg, |bk|, s.ranks, r, EffectAt(cfg, s, r, act).me);
  }

  lemma {:induction false} RunShort(cfg: Config, s: State, run: seq<Event>)
    requires Ok(cfg) && Inv(cfg, s) && Runs(cfg, s, run)
    ensures |run| <= Total(cfg, |Buckets(cfg.ws, cfg.size)|, s.ranks)
    decreases |run|
  {
    BucketsGood(cfg);
    if run == [] {
      TotalPositive(cfg, Buckets(cfg.ws, cfg.size), s.ranks);
    } else {
      StepKeeps(cfg, s, run[0].rank, run[0].act);
      StepWorks(cfg, s, run[0].rank, run[0].act);
      RunShort(cfg, Step(cfg, s, run[0].rank, run[0].act), run[1..]);
    }
  }

  /** Events of a run over n ranks and k buckets: the sender's, and those of each receiver. */
  function StepBound(cfg: Config, k: nat, n: nat): int {
    |cfg.ws| + 2 * k + 1 + (n - 1) * (k * (cfg.size + 1) + 4 * k + |cfg.ws| + 1)
  }

  lemma {:induction false} InitialWork(cfg: Config, k: nat, ranks: seq<Rank>)
    requires 1 <= |ranks|
    requires forall r | 0 <= r < |ranks| ::
      ranks[r] == Blank(ranks[r].a, ranks[r].b, if r == 0 then Filling else FirstMeta)
    ensures Total(cfg, k, ranks) == StepBound(cfg, k, |ranks|)
  {
    var n := |ranks| - 1;
    var each := k * (cfg.size + 1) + 4 * k + |cfg.ws| + 1;
    if n == 0 {
      assert Total(cfg, k, ranks[..0]) == 0;
    } else {
      InitialWork(cfg, k, ranks[..n]);
      assert Work(cfg, k, n, ranks[n]) == each;
      assert (n - 1) * each + each == n * each;
    }
  }
}
