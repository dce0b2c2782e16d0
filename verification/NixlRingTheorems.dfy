/** What the weight transfer promises, for every run of every ring of two or more ranks. */
module NixlRingTheorems {
  import opened Weights
  import opened Metadata
  import opened Transfer
  import opened TransferInvariant
  import opened NixlRing
  import opened NixlRingInvariant
  import opened NixlRingSteps
  import opened NixlRingLiveness

  lemma Reached(cfg: Config, t: State)
    requires Ok(cfg) && Reachable(cfg, t)
    ensures Inv(cfg, t)
  {
    var s, run :| Init(cfg, s) && Runs(cfg, s, run) && After(cfg, s, run) == t;
    InitInv(cfg, s);
    RunKeeps(cfg, s, run);
  }

  /** At every moment every receiver has yielded a prefix of what the buckets show, names and bytes, and all
      of it once it is done. That is the sender's stream exactly when no bucket has two weights of one name. */
  lemma YieldsPrefix(cfg: Config, t: State, r: nat)
    requires Ok(cfg) && Reachable(cfg, t) && Shaped(cfg, t) && 0 < r < cfg.n
    ensures var bk, me := Buckets(cfg.ws, cfg.size), t.ranks[r];
            && me.out <= ShownAll(bk)
            && (NamesApart(bk) ==> me.out <= cfg.ws)
            && (me.pc == Done ==> me.out == ShownAll(bk) && (me.out == cfg.ws <==> NamesApart(bk)))
  {
    Reached(cfg, t);
    BucketsGood(cfg);
    var bk := Buckets(cfg.ws, cfg.size);
    assert RankInv(cfg, bk, r, t.ranks[r]);
    StockYieldsPrefix(cfg, bk, t.ranks[r]);
    StockVersusStream(cfg, bk, t.ranks[r]);
  }

  lemma InboxOfLink(bk: seq<Bucket>, u: Rank, q: seq<Msg>, nq: seq<Notif>, down: nat, d: Rank)
    requires Link(bk, u, q, nq, down, d)
    ensures nq == [] || (u.op.Pub? && nq == [Notif(down, u.op.key)])
  {
  }

  ghost predicate InboxFine(s: State, r: nat)
    requires r < |s.ranks| == |s.notifs|
  {
    && s.ranks[r].pc != Failed
    && (s.notifs[r] == [] || (s.ranks[r].op.Pub? && s.notifs[r] == [Notif(r + 1, s.ranks[r].op.key)]))
  }

  lemma NeverFailed(cfg: Config, bk: seq<Bucket>, r: nat, me: Rank)
    requires RankInv(cfg, bk, r, me)
    ensures me.pc != Failed
  {
  }

  lemma InboxOfState(cfg: Config, s: State, r: nat)
    requires Inv(cfg, s) && r < cfg.n && s.notifs[cfg.n - 1] == []
    ensures InboxFine(s, r)
  {
    var bk, k := Buckets(cfg.ws, cfg.size), r + 1;
    NeverFailed(cfg, bk, r, s.ranks[r]);
    if k < cfg.n {
      assert LinkAt(cfg, bk, s, k);
      InboxOfLink(bk, s.ranks[r], s.msgs[k], s.notifs[r], k, s.ranks[k]);
    }
  }

  /** Nobody notifies the last rank. */
  lemma {:induction false} InboxEmptyAtEnd(cfg: Config, s: State, run: seq<Event>)
    requires cfg.n >= 2 && Shaped(cfg, s) && Runs(cfg, s, run) && s.notifs[cfg.n - 1] == []
    ensures After(cfg, s, run).notifs[cfg.n - 1] == []
    decreases |run|
  {
    if run != [] {
      InboxEmptyAtEnd(cfg, Step(cfg, s, run[0].rank, run[0].act), run[1..]);
    }
  }

  lemma LastInboxEmpty(cfg: Config, t: State)
    requires Ok(cfg) && Reachable(cfg, t) && Shaped(cfg, t)
    ensures Inv(cfg, t) && t.notifs[cfg.n - 1] == []
  {
    Reached(cfg, t);
    var s, run :| Init(cfg, s) && Runs(cfg, s, run) && After(cfg, s, run) == t;
    InboxEmptyAtEnd(cfg, s, run);
  }

  /** The assert on the notify key never fires, whatever keys are drawn: a rank's inbox is empty, or the
      rank waits and finds one notification, from its successor, with its own key. */
  lemma NotifyKeyMatches(cfg: Config, t: State, r: nat)
    requires Ok(cfg) && Reachable(cfg, t) && Shaped(cfg, t) && r < cfg.n
    ensures InboxFine(t, r)
  {
    LastInboxEmpty(cfg, t);
    InboxOfState(cfg, t, r);
  }

  /** A published slot is one that neither packing nor a read in flight writes to. */
  predicate Aside(me: Rank, slot: bool) {
    (me.pc == Filling ==> slot != me.cur) && (me.read.Reading? ==> slot == me.cur)
  }

  lemma PublishedAside(cfg: Config, bk: seq<Bucket>, r: nat, me: Rank)
    requires RankInv(cfg, bk, r, me) && me.op.Pub?
    ensures Aside(me, me.op.slot)
  {
  }

  lemma MoveSparesPublished(cfg: Config, r: nat, me: Rank, q: seq<Msg>, nq: seq<Notif>, src: seq<byte>, act: Act)
    requires Enabled(cfg, r, me, q, nq, act) && me.op.Pub? && Aside(me, me.op.slot)
    ensures var me' := Move(cfg, r, me, q, nq, src, act).me;
            && me'.Buf(me.op.slot) == me.Buf(me.op.slot)
            && (me'.op == me.op || act == Ack)
  {
  }

  lemma PublishedKept(cfg: Config, s: State, e: Event, k: nat)
    requires Inv(cfg, s) && Can(cfg, s, e.rank, e.act) && k < cfg.n && s.ranks[k].op.Pub?
    ensures var t := Step(cfg, s, e.rank, e.act);
            && t.ranks[k].Buf(s.ranks[k].op.slot) == s.ranks[k].Buf(s.ranks[k].op.slot)
            && (t.ranks[k].op == s.ranks[k].op || e == Event(k, Ack))
  {
    if k == e.rank {
      PublishedAside(cfg, Buckets(cfg.ws, cfg.size), k, s.ranks[k]);
      MoveSparesPublished(cfg, k, s.ranks[k], s.msgs[k], s.notifs[k], Source(s, k), e.act);
      InboxesAfter(cfg, s, k, e.act);
    }
  }

  lemma ViewsLive(cfg: Config, bk: seq<Bucket>, r: nat, me: Rank)
    requires r > 0 && RankInv(cfg, bk, r, me) && me.got > 0
    ensures me.pc != Filling && me.pc != FirstRead
  {
  }

  lemma MoveSparesViews(cfg: Config, r: nat, me: Rank, q: seq<Msg>, nq: seq<Notif>, src: seq<byte>, act: Act)
    requires Enabled(cfg, r, me, q, nq, act) && me.pc != Filling && me.pc != FirstRead && me.got > 0
    ensures var me' := Move(cfg, r, me, q, nq, src, act).me;
            && me'.Buf(me.cur) == me.Buf(me.cur)
            && me'.got > 0
            && (me'.cur == me.cur || act == Swap)
  {
  }

  /** In every reachable state no step of any rank writes a slot that is published and not yet acknowledged. */
  lemma StepSparesPublished(cfg: Config, s: State, e: Event, k: nat)
    requires Ok(cfg) && Reachable(cfg, s) && Can(cfg, s, e.rank, e.act) && k < cfg.n && s.ranks[k].op.Pub?
    ensures var t := Step(cfg, s, e.rank, e.act);
            && t.ranks[k].Buf(s.ranks[k].op.slot) == s.ranks[k].Buf(s.ranks[k].op.slot)
            && (t.ranks[k].op == s.ranks[k].op || e == Event(k, Ack))
  {
    Reached(cfg, s);
    PublishedKept(cfg, s, e, k);
  }

  lemma ViewsKept(cfg: Config, s: State, e: Event, k: nat)
    requires Inv(cfg, s) && Can(cfg, s, e.rank, e.act) && 0 < k < cfg.n && s.ranks[k].got > 0
    ensures var t := Step(cfg, s, e.rank, e.act);
            && t.ranks[k].Buf(s.ranks[k].cur) == s.ranks[k].Buf(s.ranks[k].cur)
            && t.ranks[k].got > 0
            && (t.ranks[k].cur == s.ranks[k].cur || e == Event(k, Swap))
  {
    if k == e.rank {
      ViewsLive(cfg, Buckets(cfg.ws, cfg.size), k, s.ranks[k]);
      MoveSparesViews(cfg, k, s.ranks[k], s.msgs[k], s.notifs[k], Source(s, k), e.act);
      InboxesAfter(cfg, s, k, e.act);
    }
  }

  /** In every reachable state no step of any rank writes the buffer a receiver's views look into. */
  lemma StepSparesViews(cfg: Config, s: State, e: Event, k: nat)
    requires Ok(cfg) && Reachable(cfg, s) && Can(cfg, s, e.rank, e.act) && 0 < k < cfg.n && s.ranks[k].got > 0
    ensures var t := Step(cfg, s, e.rank, e.act);
            && t.ranks[k].Buf(s.ranks[k].cur) == s.ranks[k].Buf(s.ranks[k].cur)
            && (t.ranks[k].cur == s.ranks[k].cur || e == Event(k, Swap))
  {
    Reached(cfg, s);
    ViewsKept(cfg, s, e, k);
  }

  lemma {:induction false} PublishedOverRun(cfg: Config, s: State, run: seq<Event>, k: nat)
    requires Ok(cfg) && Inv(cfg, s) && Runs(cfg, s, run) && k < cfg.n && s.ranks[k].op.Pub?
    requires Event(k, Ack) !in run
    ensures var t := After(cfg, s, run);
            && t.ranks[k].op == s.ranks[k].op
            && t.ranks[k].Buf(s.ranks[k].op.slot) == s.ranks[k].Buf(s.ranks[k].op.slot)
    decreases |run|
  {
    if run != [] {
      var t := Step(cfg, s, run[0].rank, run[0].act);
      assert Inv(cfg, t) by { StepKeeps(cfg, s, run[0].rank, run[0].act); }
      PublishedKept(cfg, s, run[0], k);
      assert run[0] in run && forall e | e in run[1..] :: e in run;
      PublishedOverRun(cfg, t, run[1..], k);
    }
  }

  /** From publication to acknowledgement the published slot keeps its bytes, whatever the ring does. */
  lemma PublishedSlotFrozen(cfg: Config, s: State, run: seq<Event>, k: nat)
    requires Ok(cfg) && Reachable(cfg, s) && Shaped(cfg, s) && Runs(cfg, s, run) && k < cfg.n && s.ranks[k].op.Pub?
    requires Event(k, Ack) !in run
    ensures var t := After(cfg, s, run);
            && t.ranks[k].op == s.ranks[k].op
            && t.ranks[k].Buf(s.ranks[k].op.slot) == s.ranks[k].Buf(s.ranks[k].op.slot)
  {
    Reached(cfg, s);
    PublishedOverRun(cfg, s, run, k);
  }

  lemma {:induction false} ViewsOverRun(cfg: Config, s: State, run: seq<Event>, k: nat)
    requires Ok(cfg) && Inv(cfg, s) && Runs(cfg, s, run) && 0 < k < cfg.n && s.ranks[k].got > 0
    requires Event(k, Swap) !in run
    ensures var t := After(cfg, s, run);
            && t.ranks[k].cur == s.ranks[k].cur
            && t.ranks[k].Buf(s.ranks[k].cur) == s.ranks[k].Buf(s.ranks[k].cur)
    decreases |run|
  {
    if run != [] {
      var t := Step(cfg, s, run[0].rank, run[0].act);
      assert Inv(cfg, t) by { StepKeeps(cfg, s, run[0].rank, run[0].act); }
      ViewsKept(cfg, s, run[0], k);
      assert run[0] in run && forall e | e in run[1..] :: e in run;
      ViewsOverRun(cfg, t, run[1..], k);
    }
  }

  /** Until a receiver's next swap every view it has yielded keeps its bytes, whatever the ring does. */
  lemma ViewsFrozen(cfg: Config, s: State, run: seq<Event>, k: nat)
    requires Ok(cfg) && Reachable(cfg, s) && Shaped(cfg, s) && Runs(cfg, s, run) && 0 < k < cfg.n && s.ranks[k].got > 0
    requires Event(k, Swap) !in run
    ensures var t := After(cfg, s, run);
            && t.ranks[k].cur == s.ranks[k].cur
            && t.ranks[k].Buf(s.ranks[k].cur) == s.ranks[k].Buf(s.ranks[k].cur)
  {
    Reached(cfg, s);
    ViewsOverRun(cfg, s, run, k);
  }

  /** In every reachable state with an unfinished rank, some rank can step. */
  lemma DeadlockFree(cfg: Config, t: State, k: nat)
    requires Ok(cfg) && Reachable(cfg, t) && Shaped(cfg, t)
    requires k < cfg.n && t.ranks[k].pc != Done
    ensures exists r, act :: Can(cfg, t, r, act)
  {
    Reached(cfg, t);
    if forall r: nat | r < cfg.n :: !CanMove(cfg, t, r) {
      NobodyMovesAllDone(cfg, t, k);
    } else {
      var r: nat :| r < cfg.n && CanMove(cfg, t, r);
      var act :| Can(cfg, t, r, act);
    }
  }

  /** Every run ends: no run has more events than `StepBound`. */
  lemma RunsEnd(cfg: Config, s: State, run: seq<Event>)
    requires Ok(cfg) && Init(cfg, s) && Runs(cfg, s, run)
    ensures |run| <= StepBound(cfg, |Buckets(cfg.ws, cfg.size)|, cfg.n)
  {
    InitInv(cfg, s);
    RunShort(cfg, s, run);
    InitialWork(cfg, |Buckets(cfg.ws, cfg.size)|, s.ranks);
  }

  /** A ring that cannot go on has delivered everything the buckets show; it refines handing the stream over
      exactly when no bucket has two weights of one name. */
  lemma StoppedRingDelivered(cfg: Config, t: State, r: nat)
    requires Ok(cfg) && Reachable(cfg, t) && Shaped(cfg, t) && r < cfg.n
    requires forall k, act :: !Can(cfg, t, k, act)
    ensures t.ranks[r].pc == Done
    ensures r > 0 ==> t.ranks[r].out == ShownAll(Buckets(cfg.ws, cfg.size))
    ensures r > 0 ==> (t.ranks[r].out == cfg.ws <==> NamesApart(Buckets(cfg.ws, cfg.size)))
  {
    if t.ranks[r].pc != Done {
      DeadlockFree(cfg, t, r);
    }
    if r > 0 {
      YieldsPrefix(cfg, t, r);
    }
  }

  /** A rank that is done has had all its buckets read: nothing of it is still to be fetched. */
  lemma DoneIsAcknowledged(cfg: Config, t: State, r: nat)
    requires Ok(cfg) && Reachable(cfg, t) && Shaped(cfg, t) && r < cfg.n && t.ranks[r].pc == Done
    ensures t.ranks[r].op == NoPub
    ensures r + 1 < cfg.n ==> t.ranks[r + 1].fetched == |Buckets(cfg.ws, cfg.size)|
  {
    Reached(cfg, t);
    var bk := Buckets(cfg.ws, cfg.size);
    assert RankInv(cfg, bk, r, t.ranks[r]);
    if r + 1 < cfg.n {
      assert LinkAt(cfg, bk, t, r + 1);
    }
  }
}
