/** Every step of every rank keeps the ring's invariant. */
module NixlRingSteps {
  import opened Weights
  import opened Metadata
  import opened Transfer
  import opened TransferInvariant
  import opened NixlRing
  import opened NixlRingInvariant

  /** The slot behind an outstanding publication holds the published bucket. */
  lemma PublishedHolds(cfg: Config, bk: seq<Bucket>, r: nat, u: Rank)
    requires r < cfg.n && RankInv(cfg, bk, r, u) && u.op.Pub?
    ensures 0 < u.pub <= |bk| && Holds(u.Buf(u.op.slot), bk[u.pub - 1])
  {
  }

  /** The whole neighbourhood of rank r, as the step lemmas need it. */
  ghost predicate Near(cfg: Config, bk: seq<Bucket>, s: State, r: nat) {
    && Ok(cfg) && GoodBuckets(cfg, bk) && Shaped(cfg, s) && r < cfg.n
    && RankInv(cfg, bk, r, s.ranks[r])
    && (r > 0 ==> RankInv(cfg, bk, r - 1, s.ranks[r - 1]) && LinkAt(cfg, bk, s, r))
    && (r + 1 < cfg.n ==> LinkAt(cfg, bk, s, r + 1))
  }

  function EffectAt(cfg: Config, s: State, r: nat, act: Act): Effect
    requires Can(cfg, s, r, act)
  {
    Move(cfg, r, s.ranks[r], s.msgs[r], s.notifs[r], Source(s, r), act)
  }

  lemma LinkSource(cfg: Config, bk: seq<Bucket>, up: nat, u: Rank, q: seq<Msg>, nq: seq<Notif>, d: Rank)
    requires up < cfg.n && RankInv(cfg, bk, up, u) && Link(bk, u, q, nq, up + 1, d)
    requires ReadCounters(d) && d.read.Reading?
    ensures d.got < |bk| && Holds(u.Buf(d.read.slot), bk[d.got])
  {
    PublishedHolds(cfg, bk, up, u);
  }

  lemma SourceHolds(cfg: Config, bk: seq<Bucket>, s: State, r: nat)
    requires Near(cfg, bk, s, r) && r > 0 && s.ranks[r].read.Reading?
    ensures s.ranks[r].got < |bk| && Holds(Source(s, r), bk[s.ranks[r].got])
  {
    LinkSource(cfg, bk, r - 1, s.ranks[r - 1], s.msgs[r], s.notifs[r - 1], s.ranks[r]);
  }

  lemma SenderMove(cfg: Config, bk: seq<Bucket>, me: Rank, q: seq<Msg>, nq: seq<Notif>, src: seq<byte>, act: Act)
    requires Ok(cfg) && SenderInv(cfg, bk, me) && Enabled(cfg, 0, me, q, nq, act)
    requires act.Ack? ==> nq[0].key == me.op.key
    ensures SenderInv(cfg, bk, Move(cfg, 0, me, q, nq, src, act).me)
  {
    match act
    case Fill => FilledKeeps(cfg, bk, me);
    case Publish(key) => ClosedKeeps(cfg, bk, me, key);
    case Ack => SenderAckKeeps(cfg, bk, me);
    case Finish =>
    case _ => assert false;
  }

  /** A read step keeps the stock; what it does to the counters is plain. */
  lemma ReadMove(cfg: Config, bk: seq<Bucket>, r: nat, me: Rank, q: seq<Msg>, nq: seq<Notif>, src: seq<byte>, act: Act)
    requires 0 < r && GoodBuckets(cfg, bk) && RankInv(cfg, bk, r, me) && Enabled(cfg, r, me, q, nq, act)
    requires act.TakeFirst? || act.Take? || act.Copy? || act.Complete?
    requires q != [] ==> me.taken < |bk| && q[0].meta == DictMeta(bk[me.taken]) && q[0].last == (me.taken + 1 == |bk|)
    requires me.read.Reading? ==> Holds(src, bk[me.got])
    ensures RankInv(cfg, bk, r, Move(cfg, r, me, q, nq, src, act).me)
  {
    match act
    case TakeFirst => BegunKeeps(cfg, bk, me, q[0], FirstRead);
    case Take => BegunKeeps(cfg, bk, me, q[0], Yielding);
    case Copy(i) => CopiedKeeps(cfg, bk, me, src, i);
    case Complete => CompletedKeeps(cfg, bk, me);
  }

  lemma YieldMove(cfg: Config, bk: seq<Bucket>, r: nat, me: Rank, q: seq<Msg>, nq: seq<Notif>, src: seq<byte>, act: Act)
    requires 0 < r && GoodBuckets(cfg, bk) && RankInv(cfg, bk, r, me) && Enabled(cfg, r, me, q, nq, act)
    requires act.SwapFirst? || act.Swap? || act.Yield?
    ensures RankInv(cfg, bk, r, Move(cfg, r, me, q, nq, src, act).me)
  {
    if act.Yield? {
      YieldedKeeps(cfg, bk, me);
    } else {
      SwappedKeeps(cfg, bk, me, Publishing);
    }
  }

  /** A receiver passes on the bucket in its hand, under the number of that bucket. */
  lemma PublishMove(cfg: Config, bk: seq<Bucket>, r: nat, me: Rank, q: seq<Msg>, nq: seq<Notif>,
                    src: seq<byte>, key: Key)
    requires 0 < r && RankInv(cfg, bk, r, me) && Enabled(cfg, r, me, q, nq, Publish(key))
    ensures var e := Move(cfg, r, me, q, nq, src, Publish(key));
            && RankInv(cfg, bk, r, e.me)
            && e.sends == if r + 1 < cfg.n then [Msg(key, me.cur, DictMeta(bk[me.pub]), me.pub + 1 == |bk|)] else []
  {
    var me' := Move(cfg, r, me, q, nq, src, Publish(key)).me;
    assert me.pub == me.got - 1 && me.meta == DictMeta(bk[me.pub]);
    assert Counters(me', r + 1 < cfg.n) && ReceiverPcs(me'.pc);
    assert Stock(cfg, bk, me') by {
      StockIgnores(cfg, bk, me, me'.pc, me'.op, me'.pub, me'.acked);
    }
  }

  lemma AckMove(cfg: Config, bk: seq<Bucket>, r: nat, me: Rank, q: seq<Msg>, nq: seq<Notif>, src: seq<byte>, act: Act)
    requires 0 < r && RankInv(cfg, bk, r, me) && Enabled(cfg, r, me, q, nq, act)
    requires act.Ack? || act.Finish?
    requires act.Ack? ==> nq[0].key == me.op.key
    ensures RankInv(cfg, bk, r, Move(cfg, r, me, q, nq, src, act).me)
  {
    var me' := Move(cfg, r, me, q, nq, src, act).me;
    StockIgnores(cfg, bk, me, me'.pc, me'.op, me'.pub, me'.acked);
  }

  lemma ReceiverMove(cfg: Config, bk: seq<Bucket>, r: nat, me: Rank, q: seq<Msg>, nq: seq<Notif>,
                     src: seq<byte>, act: Act)
    requires 0 < r && GoodBuckets(cfg, bk) && RankInv(cfg, bk, r, me) && Enabled(cfg, r, me, q, nq, act)
    requires act.Ack? ==> nq[0].key == me.op.key
    requires q != [] ==> me.taken < |bk| && q[0].meta == DictMeta(bk[me.taken]) && q[0].last == (me.taken + 1 == |bk|)
    requires me.read.Reading? ==> Holds(src, bk[me.got])
    ensures RankInv(cfg, bk, r, Move(cfg, r, me, q, nq, src, act).me)
  {
    if act.Publish? {
      PublishMove(cfg, bk, r, me, q, nq, src, act.key);
    } else if act.Ack? || act.Finish? {
      AckMove(cfg, bk, r, me, q, nq, src, act);
    } else if act.SwapFirst? || act.Swap? || act.Yield? {
      YieldMove(cfg, bk, r, me, q, nq, src, act);
    } else {
      ReadMove(cfg, bk, r, me, q, nq, src, act);
    }
  }

  lemma KeepsRank(cfg: Config, bk: seq<Bucket>, s: State, r: nat, act: Act)
    requires Near(cfg, bk, s, r) && Can(cfg, s, r, act)
    ensures RankInv(cfg, bk, r, EffectAt(cfg, s, r, act).me)
  {
    if act.Ack? {
      AckMatches(cfg, bk, s, r);
    }
    if r == 0 {
      SenderMove(cfg, bk, s.ranks[0], s.msgs[0], s.notifs[0], Source(s, 0), act);
    } else {
      var me := s.ranks[r];
      assert me.read.Reading? ==> Holds(Source(s, r), bk[me.got]) by {
        if me.read.Reading? {
          SourceHolds(cfg, bk, s, r);
        }
      }
      if s.msgs[r] != [] {
        InboxOffers(bk, s.ranks[r - 1], s.msgs[r], s.notifs[r - 1], r, me);
      }
      ReceiverMove(cfg, bk, r, me, s.msgs[r], s.notifs[r], Source(s, r), act);
    }
  }

  /** The message waiting for a rank announces the first bucket it has not taken yet. */
  lemma InboxOffers(bk: seq<Bucket>, u: Rank, q: seq<Msg>, nq: seq<Notif>, down: nat, d: Rank)
    requires Link(bk, u, q, nq, down, d) && q != []
    ensures d.taken < |bk| && q[0].meta == DictMeta(bk[d.taken]) && q[0].last == (d.taken + 1 == |bk|)
  {
  }

  /** Whoever waits for a notification gets its own successor's, carrying the key it handed out. */
  lemma AckMatches(cfg: Config, bk: seq<Bucket>, s: State, r: nat)
    requires Near(cfg, bk, s, r) && s.ranks[r].op.Pub? && s.notifs[r] != []
    ensures r + 1 < cfg.n && s.notifs[r] == [Notif(r + 1, s.ranks[r].op.key)]
  {
  }

  /** All but four actions leave the link to the predecessor alone. */
  lemma QuietUpstream(cfg: Config, r: nat, me: Rank, q: seq<Msg>, nq: seq<Notif>, src: seq<byte>, act: Act)
    requires r > 0 && Enabled(cfg, r, me, q, nq, act)
    requires !(act.TakeFirst? || act.Take? || act.Copy? || act.Complete?)
    requires act.Swap? || act.SwapFirst? ==> me.read == ReadDone
    ensures var e := Move(cfg, r, me, q, nq, src, act);
            && !e.takes && e.notifies == []
            && e.me.taken == me.taken && e.me.fetched == me.fetched
            && (e.me.read == me.read || e.me.read == NoRead)
  {
  }

  lemma ReadUpstream(cfg: Config, bk: seq<Bucket>, r: nat, u: Rank, back: seq<Notif>, me: Rank, q: seq<Msg>,
                     nq: seq<Notif>, src: seq<byte>, act: Act)
    requires r > 0 && ReadCounters(me) && Enabled(cfg, r, me, q, nq, act) && Link(bk, u, q, back, r, me)
    requires act.TakeFirst? || act.Take? || act.Copy? || act.Complete?
    requires act.TakeFirst? || act.Take? ==> me.read == NoRead
    ensures var e := Move(cfg, r, me, q, nq, src, act);
            Link(bk, u, if e.takes then q[1..] else q, back + e.notifies, r, e.me)
  {
    var e := Move(cfg, r, me, q, nq, src, act);
    if act.Complete? {
      assert back == [];
      assert back + e.notifies == [Notif(r, me.read.key)];
    } else {
      assert back + e.notifies == back;
    }
  }

  /** Towards its predecessor a receiver only takes messages and reports completed reads. */
  lemma MoveUpstream(cfg: Config, bk: seq<Bucket>, r: nat, u: Rank, back: seq<Notif>, me: Rank, q: seq<Msg>,
                     nq: seq<Notif>, src: seq<byte>, act: Act)
    requires r > 0 && RankInv(cfg, bk, r, me) && Enabled(cfg, r, me, q, nq, act) && Link(bk, u, q, back, r, me)
    ensures var e := Move(cfg, r, me, q, nq, src, act);
            Link(bk, u, if e.takes then q[1..] else q, back + e.notifies, r, e.me)
  {
    if act.TakeFirst? || act.Take? || act.Copy? || act.Complete? {
      ReadUpstream(cfg, bk, r, u, back, me, q, nq, src, act);
    } else {
      QuietUpstream(cfg, r, me, q, nq, src, act);
      assert back + [] == back;
    }
  }

  lemma InboxesBefore(cfg: Config, s: State, r: nat, act: Act)
    requires Can(cfg, s, r, act) && r > 0
    ensures var t, e := Step(cfg, s, r, act), EffectAt(cfg, s, r, act);
            && t.ranks[r] == e.me
            && t.msgs[r] == (if e.takes then s.msgs[r][1..] else s.msgs[r])
            && t.notifs[r - 1] == s.notifs[r - 1] + e.notifies
  {
  }

  lemma KeepsUpstream(cfg: Config, bk: seq<Bucket>, s: State, r: nat, act: Act)
    requires Near(cfg, bk, s, r) && Can(cfg, s, r, act) && r > 0
    ensures LinkAt(cfg, bk, Step(cfg, s, r, act), r)
  {
    InboxesBefore(cfg, s, r, act);
    MoveUpstream(cfg, bk, r, s.ranks[r - 1], s.notifs[r - 1], s.ranks[r], s.msgs[r], s.notifs[r], Source(s, r), act);
  }

  lemma PublishDownstream(cfg: Config, bk: seq<Bucket>, r: nat, me: Rank, q: seq<Msg>, nq: seq<Notif>, src: seq<byte>,
                          key: Key, ahead: seq<Msg>, d: Rank)
    requires Ok(cfg) && GoodBuckets(cfg, bk) && r + 1 < cfg.n && RankInv(cfg, bk, r, me)
    requires Enabled(cfg, r, me, q, nq, Publish(key)) && Link(bk, me, ahead, nq, r + 1, d)
    ensures var e := Move(cfg, r, me, q, nq, src, Publish(key));
            Link(bk, e.me, ahead + e.sends, nq, r + 1, d)
  {
    var e := Move(cfg, r, me, q, nq, src, Publish(key));
    assert ahead == [] && nq == [];
    if r == 0 {
      ClosedKeeps(cfg, bk, me, key);
    } else {
      PublishMove(cfg, bk, r, me, q, nq, src, key);
    }
    assert ahead + e.sends == e.sends;
    assert e.me.op == Pub(key, me.cur) && e.me.pub == me.pub + 1 && e.me.acked == me.acked;
  }

  lemma AckDownstream(cfg: Config, bk: seq<Bucket>, r: nat, me: Rank, q: seq<Msg>, nq: seq<Notif>, src: seq<byte>,
                      ahead: seq<Msg>, d: Rank)
    requires r + 1 < cfg.n
    requires Enabled(cfg, r, me, q, nq, Ack) && Link(bk, me, ahead, nq, r + 1, d)
    ensures Link(bk, Move(cfg, r, me, q, nq, src, Ack).me, ahead, nq[1..], r + 1, d)
  {
  }

  /** Every other action leaves the outstanding publication of the rank alone. */
  lemma QuietDownstream(cfg: Config, r: nat, me: Rank, q: seq<Msg>, nq: seq<Notif>, src: seq<byte>, act: Act)
    requires Enabled(cfg, r, me, q, nq, act) && !act.Publish? && !act.Ack?
    ensures var e := Move(cfg, r, me, q, nq, src, act);
            e.me.op == me.op && e.me.pub == me.pub && e.me.acked == me.acked && e.sends == [] && !e.pops
  {
  }

  lemma OtherDownstream(cfg: Config, bk: seq<Bucket>, r: nat, me: Rank, q: seq<Msg>, nq: seq<Notif>, src: seq<byte>,
                        act: Act, ahead: seq<Msg>, d: Rank)
    requires r + 1 < cfg.n && Enabled(cfg, r, me, q, nq, act) && !act.Publish? && Link(bk, me, ahead, nq, r + 1, d)
    ensures var e := Move(cfg, r, me, q, nq, src, act);
            Link(bk, e.me, ahead + e.sends, if e.pops then nq[1..] else nq, r + 1, d)
  {
    var e := Move(cfg, r, me, q, nq, src, act);
    if act.Ack? {
      AckDownstream(cfg, bk, r, me, q, nq, src, ahead, d);
    } else {
      QuietDownstream(cfg, r, me, q, nq, src, act);
    }
    assert ahead + e.sends == ahead;
  }

  lemma InboxesAfter(cfg: Config, s: State, r: nat, act: Act)
    requires Can(cfg, s, r, act)
    ensures var t, e := Step(cfg, s, r, act), EffectAt(cfg, s, r, act);
            && t.ranks[r] == e.me
            && t.notifs[r] == (if e.pops then s.notifs[r][1..] else s.notifs[r])
            && (r + 1 < cfg.n ==> t.msgs[r + 1] == s.msgs[r + 1] + e.sends)
  {
  }

  lemma KeepsDownstream(cfg: Config, bk: seq<Bucket>, s: State, r: nat, act: Act)
    requires Near(cfg, bk, s, r) && Can(cfg, s, r, act) && r + 1 < cfg.n
    ensures LinkAt(cfg, bk, Step(cfg, s, r, act), r + 1)
  {
    InboxesAfter(cfg, s, r, act);
    var me, q, nq, src := s.ranks[r], s.msgs[r], s.notifs[r], Source(s, r);
    if act.Publish? {
      PublishDownstream(cfg, bk, r, me, q, nq, src, act.key, s.msgs[r + 1], s.ranks[r + 1]);
    } else {
      OtherDownstream(cfg, bk, r, me, q, nq, src, act, s.msgs[r + 1], s.ranks[r + 1]);
    }
  }

  lemma NearAt(cfg: Config, s: State, r: nat)
    requires Ok(cfg) && Inv(cfg, s) && r < cfg.n
    ensures Near(cfg, Buckets(cfg.ws, cfg.size), s, r)
  {
    BucketsGood(cfg);
  }

  /** A step touches only the inboxes of the rank and its neighbours. */
  lemma FarLinks(cfg: Config, bk: seq<Bucket>, s: State, r: nat, act: Act, k: nat)
    requires Can(cfg, s, r, act) && 0 < k < cfg.n && k != r && k != r + 1
    requires LinkAt(cfg, bk, s, k)
    ensures LinkAt(cfg, bk, Step(cfg, s, r, act), k)
  {
    var t := Step(cfg, s, r, act);
    assert t.ranks[k] == s.ranks[k] && t.ranks[k - 1] == s.ranks[k - 1];
    assert t.msgs[k] == s.msgs[k] && t.notifs[k - 1] == s.notifs[k - 1];
  }

  lemma RankKept(cfg: Config, bk: seq<Bucket>, s: State, r: nat, act: Act, k: nat)
    requires Near(cfg, bk, s, r) && Can(cfg, s, r, act) && k < cfg.n && RankInv(cfg, bk, k, s.ranks[k])
    ensures RankInv(cfg, bk, k, Step(cfg, s, r, act).ranks[k])
  {
    if k == r {
      KeepsRank(cfg, bk, s, r, act);
    }
  }

  lemma LinkKept(cfg: Config, bk: seq<Bucket>, s: State, r: nat, act: Act, k: nat)
    requires Near(cfg, bk, s, r) && Can(cfg, s, r, act) && 0 < k < cfg.n && LinkAt(cfg, bk, s, k)
    ensures LinkAt(cfg, bk, Step(cfg, s, r, act), k)
  {
    if k == r {
      KeepsUpstream(cfg, bk, s, r, act);
    } else if k == r + 1 {
      KeepsDownstream(cfg, bk, s, r, act);
    } else {
      FarLinks(cfg, bk, s, r, act, k);
    }
  }

  /** One step of any rank keeps the invariant of the whole ring. */
  lemma StepKeeps(cfg: Config, s: State, r: nat, act: Act)
    requires Ok(cfg) && Inv(cfg, s) && Can(cfg, s, r, act)
    ensures Inv(cfg, Step(cfg, s, r, act))
  {
    var bk := Buckets(cfg.ws, cfg.size);
    var t := Step(cfg, s, r, act);
    NearAt(cfg, s, r);
    forall k: nat | k < cfg.n ensures RankInv(cfg, bk, k, t.ranks[k]) {
      RankKept(cfg, bk, s, r, act, k);
    }
    forall k: nat | 0 < k < cfg.n ensures LinkAt(cfg, bk, t, k) {
      LinkKept(cfg, bk, s, r, act, k);
    }
  }

  lemma {:induction false} RunKeeps(cfg: Config, s: State, run: seq<Event>)
    requires Ok(cfg) && Inv(cfg, s) && Runs(cfg, s, run)
    ensures Inv(cfg, After(cfg, s, run))
    decreases |run|
  {
    if run != [] {
      StepKeeps(cfg, s, run[0].rank, run[0].act);
      RunKeeps(cfg, Step(cfg, s, run[0].rank, run[0].act), run[1..]);
    }
  }
}
