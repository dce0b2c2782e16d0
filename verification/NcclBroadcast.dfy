/** The NCCL weight transfer: rank 0 broadcasts each bucket to all receivers from a thread, while it
    fills its other buffer and the receivers yield from theirs. */
module NcclBroadcast {
  import opened Weights
  import opened Metadata
  import opened Transfer
  import opened TransferInvariant

  /** `pending` is metadata the root's thread has still to send, `finished` says that its broadcast
      returned. Receiver i is rank i + 1; `msgs[i]` is its subscription to the metadata topic. */
  datatype State = State(root: Rank, pending: seq<Msg>, finished: bool, recv: seq<Rank>, msgs: seq<seq<Msg>>)

  datatype RootAct = Fill | Publish | SendMeta | CastDone | Wait | RootFinish

  datatype RecvAct = Take | Copy(at: nat) | Complete | Swap | Yield | Finish

  datatype Act = Root(act: RootAct) | Recv(i: nat, move: RecvAct)

  predicate Shaped(cfg: Config, s: State) {
    |s.recv| == |s.msgs| == cfg.n - 1
  }

  predicate Init(cfg: Config, s: State) {
    && cfg.n >= 1 && Shaped(cfg, s)
    && |s.root.a| == |s.root.b| == cfg.size
    && s.root == Blank(s.root.a, s.root.b, Filling)
    && s.pending == [] && !s.finished
    && (forall i | 0 <= i < |s.recv| ::
          && |s.recv[i].a| == |s.recv[i].b| == cfg.size
          && s.recv[i] == Blank(s.recv[i].a, s.recv[i].b, FirstMeta)
          && s.msgs[i] == [])
  }

  /** The thread of a receiver has an operation to run: the first one, or the one started before yielding. */
  predicate Expects(me: Rank) {
    me.pc == FirstMeta || (me.pc == Yielding && !me.last)
  }

  /** The root is inside the collective call number `pub`. A collective pairs equal call numbers. */
  predicate Casting(s: State) {
    s.root.op.Pub? && s.pending == [] && !s.finished
  }

  predicate MayWait(cfg: Config, root: Rank) {
    (root.pc == Filling && MustFlush(cfg, root)) || root.pc == Draining
  }

  predicate RootCan(cfg: Config, s: State, act: RootAct) {
    match act
    case Fill => s.root.pc == Filling && !MustFlush(cfg, s.root)
    case Publish => s.root.pc == Filling && MustFlush(cfg, s.root) && s.root.op == NoPub
    case SendMeta => s.pending != []
    case CastDone => Casting(s) && forall k | 0 <= k < |s.recv| :: s.recv[k].fetched == s.root.pub
    case Wait => s.root.op.Pub? && s.finished && MayWait(cfg, s.root)
    case RootFinish => s.root.op == NoPub && s.root.pc == Draining
  }

  function RootStep(cfg: Config, s: State, act: RootAct): State
    requires RootCan(cfg, s, act)
  {
    match act
    case Fill => s.(root := Filled(cfg, s.root))
    case Publish => s.(root := Closed(cfg, s.root, []), pending := [Announcement(cfg, s.root, [])])
    case SendMeta => s.(pending := s.pending[1..],
                        msgs := seq(|s.msgs|, k requires 0 <= k < |s.msgs| => s.msgs[k] + [s.pending[0]]))
    case CastDone => s.(finished := true)
    case Wait => s.(root := s.root.(op := NoPub, acked := s.root.acked + 1), finished := false)
    case RootFinish => s.(root := s.root.(pc := Done))
  }

  /** `paired` says that the root is inside the same collective call as this receiver. */
  predicate RecvCan(size: nat, me: Rank, q: seq<Msg>, paired: bool, act: RecvAct) {
    match act
    case Take => Expects(me) && me.read == NoRead && q != []
    case Copy(at) => me.read.Reading? && at < size && at !in me.read.copied && paired
    case Complete => me.read.Reading? && forall at | 0 <= at < size :: at in me.read.copied
    case Swap => me.read == ReadDone && (me.pc == FirstMeta || (AllYielded(me) && !me.last))
    case Yield => me.pc == Yielding && me.yielded < |me.meta|
    case Finish => AllYielded(me) && me.last
  }

  function RecvMove(size: nat, me: Rank, q: seq<Msg>, paired: bool, src: seq<byte>, act: RecvAct): Rank
    requires RecvCan(size, me, q, paired, act)
  {
    match act
    case Take => Begun(me, q[0])
    case Copy(at) => Copied(me, src, at)
    case Complete => Completed(me)
    case Swap => Swapped(me, Yielding)
    case Yield => Yielded(me)
    case Finish => me.(pc := Done)
  }

  predicate Paired(s: State, me: Rank) {
    Casting(s) && s.root.pub == me.taken
  }

  function Sent(s: State): seq<byte> {
    if s.root.op.Pub? then s.root.Buf(s.root.op.slot) else []
  }

  predicate Can(cfg: Config, s: State, act: Act) {
    && Shaped(cfg, s)
    && match act
       case Root(a) => RootCan(cfg, s, a)
       case Recv(i, a) => i < |s.recv| && RecvCan(cfg.size, s.recv[i], s.msgs[i], Paired(s, s.recv[i]), a)
  }

  function Step(cfg: Config, s: State, act: Act): (t: State)
    requires Can(cfg, s, act)
    ensures Shaped(cfg, t)
  {
    match act
    case Root(a) => RootStep(cfg, s, a)
    case Recv(i, a) =>
      s.(recv := s.recv[i := RecvMove(cfg.size, s.recv[i], s.msgs[i], Paired(s, s.recv[i]), Sent(s), a)],
         msgs := if a.Take? then s.msgs[i := s.msgs[i][1..]] else s.msgs)
  }

  predicate Runs(cfg: Config, s: State, run: seq<Act>)
    decreases |run|
  {
    run == [] || (Can(cfg, s, run[0]) && Runs(cfg, Step(cfg, s, run[0]), run[1..]))
  }

  function After(cfg: Config, s: State, run: seq<Act>): State
    requires Runs(cfg, s, run)
    decreases |run|
  {
    if run == [] then s else After(cfg, Step(cfg, s, run[0]), run[1..])
  }

  ghost predicate Reachable(cfg: Config, t: State) {
    exists s, run :: Init(cfg, s) && Runs(cfg, s, run) && After(cfg, s, run) == t
  }

  // ----- the invariant

  ghost predicate RecvInv(cfg: Config, bk: seq<Bucket>, me: Rank) {
    && Stock(cfg, bk, me)
    && (me.pc == FirstMeta || me.pc == Yielding || me.pc == Done)
    && (me.pc == FirstMeta <==> me.got == 0)
    && (me.pc == Done ==> me.last && me.yielded == |me.meta|)
  }

  /** Metadata goes out before the collective call, and everyone is at most one bucket apart. */
  ghost predicate RootInv(bk: seq<Bucket>, root: Rank, pending: seq<Msg>, finished: bool) {
    && (root.op.Pub? <==> root.pub == root.acked + 1)
    && |pending| <= 1
    && (pending != [] ==>
          && root.op.Pub? && !finished && 0 < root.pub <= |bk|
          && pending[0] == Msg(root.op.key, root.op.slot, DictMeta(bk[root.pub - 1]), root.pub == |bk|))
    && (finished ==> root.op.Pub?)
  }

  ghost predicate Spoke(bk: seq<Bucket>, root: Rank, pending: seq<Msg>, finished: bool, q: seq<Msg>, d: Rank) {
    && root.acked + (if finished then 1 else 0) <= d.fetched <= d.taken <= root.pub - |pending|
    && root.pub <= root.acked + 1 && root.pub <= |bk|
    && |q| == root.pub - |pending| - d.taken
    && (q != [] ==>
          root.op.Pub? && q[0] == Msg(root.op.key, root.op.slot, DictMeta(bk[root.pub - 1]), root.pub == |bk|))
    && (d.read.Reading? ==> d.taken == d.fetched + 1)
  }

  ghost predicate SpokeAt(cfg: Config, bk: seq<Bucket>, s: State, i: nat)
    requires i < |s.recv| == |s.msgs|
  {
    RecvInv(cfg, bk, s.recv[i]) && Spoke(bk, s.root, s.pending, s.finished, s.msgs[i], s.recv[i])
  }

  ghost predicate Inv(cfg: Config, s: State) {
    var bk := Buckets(cfg.ws, cfg.size);
    && Shaped(cfg, s)
    && SenderInv(cfg, bk, s.root)
    && RootInv(bk, s.root, s.pending, s.finished)
    && forall i: nat | i < |s.recv| :: SpokeAt(cfg, bk, s, i)
  }

  lemma InitInv(cfg: Config, s: State)
    requires Ok(cfg) && Init(cfg, s)
    ensures Inv(cfg, s)
  {
    assert cfg.ws[0..] == cfg.ws;
    assert Open(cfg, Buckets(cfg.ws, cfg.size), s.root, []);
  }

  lemma RootStepKeeps(cfg: Config, bk: seq<Bucket>, s: State, act: RootAct)
    requires Ok(cfg) && GoodBuckets(cfg, bk) && RootCan(cfg, s, act)
    requires SenderInv(cfg, bk, s.root) && RootInv(bk, s.root, s.pending, s.finished)
    ensures var t := RootStep(cfg, s, act);
            SenderInv(cfg, bk, t.root) && RootInv(bk, t.root, t.pending, t.finished)
  {
    match act
    case Fill => FilledKeeps(cfg, bk, s.root);
    case Publish => ClosedKeeps(cfg, bk, s.root, []);
    case Wait => SenderAckKeeps(cfg, bk, s.root);
    case _ =>
  }

  /** A step of the root, seen from one receiver. */
  lemma SpokeKeptByRoot(cfg: Config, bk: seq<Bucket>, s: State, act: RootAct, i: nat)
    requires Ok(cfg) && GoodBuckets(cfg, bk) && Shaped(cfg, s) && RootCan(cfg, s, act) && i < |s.recv|
    requires SenderInv(cfg, bk, s.root) && RootInv(bk, s.root, s.pending, s.finished) && SpokeAt(cfg, bk, s, i)
    ensures var t := RootStep(cfg, s, act);
            i < |t.recv| == |t.msgs| && SpokeAt(cfg, bk, t, i)
  {
    var t := RootStep(cfg, s, act);
    assert t.recv[i] == s.recv[i];
    if act.SendMeta? {
      assert s.msgs[i] == [];
      assert t.msgs[i] == [s.pending[0]];
    } else {
      assert t.msgs[i] == s.msgs[i];
    }
  }

  lemma CopyIsFaithful(cfg: Config, bk: seq<Bucket>, s: State, i: nat)
    requires Shaped(cfg, s) && i < |s.recv| && SenderInv(cfg, bk, s.root) && SpokeAt(cfg, bk, s, i)
    ensures s.recv[i].read.Reading? && Paired(s, s.recv[i]) ==>
              s.recv[i].got < |bk| && Holds(Sent(s), bk[s.recv[i].got])
  {
  }

  lemma HeadIsNext(bk: seq<Bucket>, root: Rank, pending: seq<Msg>, finished: bool, q: seq<Msg>, d: Rank)
    requires Spoke(bk, root, pending, finished, q, d) && q != []
    ensures d.taken < |bk| && q[0].meta == DictMeta(bk[d.taken]) && q[0].last == (d.taken + 1 == |bk|)
  {
  }

  lemma RecvMoveKeeps(cfg: Config, bk: seq<Bucket>, me: Rank, q: seq<Msg>, paired: bool, src: seq<byte>, act: RecvAct)
    requires GoodBuckets(cfg, bk) && RecvInv(cfg, bk, me) && RecvCan(cfg.size, me, q, paired, act)
    requires q != [] ==> me.taken < |bk| && q[0].meta == DictMeta(bk[me.taken]) && q[0].last == (me.taken + 1 == |bk|)
    requires me.read.Reading? && paired ==> Holds(src, bk[me.got])
    ensures RecvInv(cfg, bk, RecvMove(cfg.size, me, q, paired, src, act))
  {
    match act
    case Take => BegunKeeps(cfg, bk, me, q[0], me.pc);
    case Copy(at) => CopiedKeeps(cfg, bk, me, src, at);
    case Complete => CompletedKeeps(cfg, bk, me);
    case Swap => SwappedKeeps(cfg, bk, me, Yielding);
    case Yield => YieldedKeeps(cfg, bk, me);
    case Finish => StockIgnores(cfg, bk, me, Done, me.op, me.pub, me.acked);
  }

  lemma SpokeKeptByRecv(cfg: Config, bk: seq<Bucket>, s: State, q: seq<Msg>, me: Rank, paired: bool, src: seq<byte>,
                        act: RecvAct)
    requires RecvCan(cfg.size, me, q, paired, act) && ReadCounters(me)
    requires Spoke(bk, s.root, s.pending, s.finished, q, me)
    ensures var q' := if act.Take? then q[1..] else q;
            Spoke(bk, s.root, s.pending, s.finished, q', RecvMove(cfg.size, me, q, paired, src, act))
  {
  }

  lemma RecvStepKeeps(cfg: Config, bk: seq<Bucket>, s: State, i: nat, act: RecvAct)
    requires GoodBuckets(cfg, bk) && Can(cfg, s, Recv(i, act))
    requires SenderInv(cfg, bk, s.root) && SpokeAt(cfg, bk, s, i)
    ensures SpokeAt(cfg, bk, Step(cfg, s, Recv(i, act)), i)
  {
    var me, q := s.recv[i], s.msgs[i];
    var paired := Paired(s, me);
    CopyIsFaithful(cfg, bk, s, i);
    if q != [] {
      HeadIsNext(bk, s.root, s.pending, s.finished, q, me);
    }
    RecvMoveKeeps(cfg, bk, me, q, paired, Sent(s), act);
    SpokeKeptByRecv(cfg, bk, s, q, me, paired, Sent(s), act);
  }

  lemma StepKeeps(cfg: Config, s: State, act: Act)
    requires Ok(cfg) && Inv(cfg, s) && Can(cfg, s, act)
    ensures Inv(cfg, Step(cfg, s, act))
  {
    var bk := Buckets(cfg.ws, cfg.size);
    BucketsGood(cfg);
    var t := Step(cfg, s, act);
    if act.Root? {
      RootStepKeeps(cfg, bk, s, act.act);
    }
    forall i: nat | i < |t.recv| ensures SpokeAt(cfg, bk, t, i) {
      assert SpokeAt(cfg, bk, s, i);
      if act.Root? {
        SpokeKeptByRoot(cfg, bk, s, act.act, i);
      } else if act.i == i {
        RecvStepKeeps(cfg, bk, s, i, act.move);
      } else {
        assert t.recv[i] == s.recv[i] && t.msgs[i] == s.msgs[i];
      }
    }
  }

  lemma {:induction false} RunKeeps(cfg: Config, s: State, run: seq<Act>)
    requires Ok(cfg) && Inv(cfg, s) && Runs(cfg, s, run)
    ensures Inv(cfg, After(cfg, s, run))
    decreases |run|
  {
    if run != [] {
      StepKeeps(cfg, s, run[0]);
      RunKeeps(cfg, Step(cfg, s, run[0]), run[1..]);
    }
  }

  lemma Reached(cfg: Config, t: State)
    requires Ok(cfg) && Reachable(cfg, t)
    ensures Inv(cfg, t)
  {
    var s, run :| Init(cfg, s) && Runs(cfg, s, run) && After(cfg, s, run) == t;
    InitInv(cfg, s);
    RunKeeps(cfg, s, run);
  }

  // ----- what it promises

  /** At every moment every receiver has yielded a prefix of what the buckets show, and all of it when done.
      That is the sender's stream exactly when no bucket has two weights of one name. */
  lemma YieldsPrefix(cfg: Config, t: State, i: nat)
    requires Ok(cfg) && Reachable(cfg, t) && i < |t.recv|
    ensures var bk, me := Buckets(cfg.ws, cfg.size), t.recv[i];
            && me.out <= ShownAll(bk)
            && (NamesApart(bk) ==> me.out <= cfg.ws)
            && (me.pc == Done ==> me.out == ShownAll(bk) && (me.out == cfg.ws <==> NamesApart(bk)))
  {
    Reached(cfg, t);
    BucketsGood(cfg);
    var bk := Buckets(cfg.ws, cfg.size);
    assert SpokeAt(cfg, bk, t, i);
    StockYieldsPrefix(cfg, bk, t.recv[i]);
    StockVersusStream(cfg, bk, t.recv[i]);
  }

  /** A root that is done has waited for every broadcast, and every receiver has all buckets. */
  lemma DoneIsReceived(cfg: Config, t: State, i: nat)
    requires Ok(cfg) && Reachable(cfg, t) && i < |t.recv| && t.root.pc == Done
    ensures t.root.op == NoPub && t.recv[i].fetched == |Buckets(cfg.ws, cfg.size)|
  {
    Reached(cfg, t);
    assert SpokeAt(cfg, Buckets(cfg.ws, cfg.size), t, i);
  }

  /** From the start of a broadcast until it has been waited for, no step writes the bytes it sends; and
      no step writes the buffer a receiver's views look into. */
  lemma StepSparesBuffers(cfg: Config, s: State, act: Act)
    requires Ok(cfg) && Reachable(cfg, s) && Can(cfg, s, act)
    ensures var t := Step(cfg, s, act);
            && (s.root.op.Pub? ==> t.root.Buf(s.root.op.slot) == s.root.Buf(s.root.op.slot))
            && forall i | 0 <= i < |s.recv| && s.recv[i].got > 0 ::
                 t.recv[i].Buf(s.recv[i].cur) == s.recv[i].Buf(s.recv[i].cur)
  {
    Reached(cfg, s);
    match act
    case Root(a) => RootSpares(cfg, Buckets(cfg.ws, cfg.size), s, a);
    case Recv(i, a) => RecvSpares(cfg.size, s.recv[i], s.msgs[i], Paired(s, s.recv[i]), Sent(s), a);
  }

  lemma RootSpares(cfg: Config, bk: seq<Bucket>, s: State, act: RootAct)
    requires RootCan(cfg, s, act) && SenderInv(cfg, bk, s.root)
    ensures s.root.op.Pub? ==> RootStep(cfg, s, act).root.Buf(s.root.op.slot) == s.root.Buf(s.root.op.slot)
  {
  }

  lemma RecvSpares(size: nat, me: Rank, q: seq<Msg>, paired: bool, src: seq<byte>, act: RecvAct)
    requires RecvCan(size, me, q, paired, act)
    ensures RecvMove(size, me, q, paired, src, act).Buf(me.cur) == me.Buf(me.cur)
  {
  }

  ghost predicate Stopped(cfg: Config, t: State) {
    forall act :: !Can(cfg, t, act)
  }

  ghost predicate ReceiverRests(me: Rank, q: seq<Msg>) {
    me.pc == Done || (me.read == NoRead && Expects(me) && q == [])
  }

  /** A read that is paired can always go on. */
  lemma ReadingCan(size: nat, me: Rank, q: seq<Msg>, paired: bool) returns (act: RecvAct)
    requires me.read.Reading? && paired
    ensures RecvCan(size, me, q, paired, act)
  {
    if at: nat :| at < size && at !in me.read.copied {
      act := Copy(at);
    } else {
      act := Complete;
    }
  }

  lemma RecvIdle(cfg: Config, bk: seq<Bucket>, me: Rank, q: seq<Msg>, paired: bool)
    requires RecvInv(cfg, bk, me) && (me.read.Reading? ==> paired)
    requires forall act :: !RecvCan(cfg.size, me, q, paired, act)
    ensures ReceiverRests(me, q)
  {
    if me.read.Reading? {
      var act := ReadingCan(cfg.size, me, q, paired);
    }
    assert !RecvCan(cfg.size, me, q, paired, Take);
    assert !RecvCan(cfg.size, me, q, paired, Swap);
    assert !RecvCan(cfg.size, me, q, paired, Yield);
    assert !RecvCan(cfg.size, me, q, paired, Finish);
  }

  /** A receiver that reads is in the same collective call as the root. */
  lemma ReadingPaired(bk: seq<Bucket>, s: State, q: seq<Msg>, d: Rank)
    requires Spoke(bk, s.root, s.pending, s.finished, q, d) && RootInv(bk, s.root, s.pending, s.finished)
    requires d.read.Reading? && s.pending == []
    ensures Paired(s, d)
  {
  }

  lemma StoppedReceiverRests(cfg: Config, t: State, i: nat)
    requires Inv(cfg, t) && i < |t.recv| && Stopped(cfg, t)
    ensures ReceiverRests(t.recv[i], t.msgs[i])
  {
    var bk := Buckets(cfg.ws, cfg.size);
    var me, q := t.recv[i], t.msgs[i];
    assert SpokeAt(cfg, bk, t, i);
    assert !Can(cfg, t, Root(SendMeta));
    if me.read.Reading? {
      ReadingPaired(bk, t, q, me);
    }
    forall act ensures !RecvCan(cfg.size, me, q, Paired(t, me), act) {
      assert !Can(cfg, t, Recv(i, act));
    }
    RecvIdle(cfg, bk, me, q, Paired(t, me));
  }

  lemma RestingHasEverything(cfg: Config, bk: seq<Bucket>, t: State, i: nat)
    requires Shaped(cfg, t) && i < |t.recv| && SpokeAt(cfg, bk, t, i) && t.pending == []
    requires ReceiverRests(t.recv[i], t.msgs[i])
    ensures t.recv[i].fetched == t.root.pub
  {
  }

  lemma RootDone(cfg: Config, t: State)
    requires Inv(cfg, t) && Stopped(cfg, t)
    ensures t.root.pc == Done
  {
    assert !Can(cfg, t, Root(SendMeta));
    assert !Can(cfg, t, Root(Fill));
    assert !Can(cfg, t, Root(Publish));
    assert !Can(cfg, t, Root(Wait));
    assert !Can(cfg, t, Root(RootFinish));
    if Casting(t) {
      forall k: nat | k < |t.recv| ensures t.recv[k].fetched == t.root.pub {
        StoppedReceiverRests(cfg, t, k);
        assert SpokeAt(cfg, Buckets(cfg.ws, cfg.size), t, k);
        RestingHasEverything(cfg, Buckets(cfg.ws, cfg.size), t, k);
      }
      assert Can(cfg, t, Root(CastDone));
    }
  }

  /** Nobody can step only when everybody is done. */
  lemma DeadlockFree(cfg: Config, t: State)
    requires Ok(cfg) && Reachable(cfg, t) && Stopped(cfg, t)
    ensures t.root.pc == Done && forall i | 0 <= i < |t.recv| :: t.recv[i].pc == Done
  {
    Reached(cfg, t);
    RootDone(cfg, t);
    forall i: nat | i < |t.recv| ensures t.recv[i].pc == Done {
      assert SpokeAt(cfg, Buckets(cfg.ws, cfg.size), t, i);
      StoppedReceiverRests(cfg, t, i);
    }
  }

  // ----- termination

  function RootWork(cfg: Config, k: nat, s: State): int {
    (|cfg.ws| - s.root.next) + (k - s.root.pub) + (k - (s.root.pub - |s.pending|))
    + (k - s.root.acked - (if s.finished then 1 else 0)) + (k - s.root.acked) + (if s.root.pc == Done then 0 else 1)
  }

  function RecvWork(cfg: Config, k: nat, me: Rank): int {
    ReadWork(cfg, k, me) + (k - me.got) + (|cfg.ws| - |me.out|) + (if me.pc == Done then 0 else 1)
  }

  function RecvTotal(cfg: Config, k: nat, recv: seq<Rank>): int {
    if recv == [] then 0 else RecvTotal(cfg, k, recv[..|recv| - 1]) + RecvWork(cfg, k, recv[|recv| - 1])
  }

  lemma {:induction false} RecvTotalUpdate(cfg: Config, k: nat, recv: seq<Rank>, i: nat, me: Rank)
    requires i < |recv|
    ensures RecvTotal(cfg, k, recv[i := me]) ==
            RecvTotal(cfg, k, recv) - RecvWork(cfg, k, recv[i]) + RecvWork(cfg, k, me)
  {
    var n := |recv| - 1;
    if i < n {
      RecvTotalUpdate(cfg, k, recv[..n], i, me);
      assert recv[i := me][..n] == recv[..n][i := me];
    } else {
      assert recv[i := me][..n] == recv[..n];
    }
  }

  lemma {:induction false} RecvTotalPositive(cfg: Config, bk: seq<Bucket>, recv: seq<Rank>)
    requires GoodBuckets(cfg, bk) && forall i | 0 <= i < |recv| :: RecvInv(cfg, bk, recv[i])
    ensures RecvTotal(cfg, |bk|, recv) >= 0
  {
    if recv != [] {
      var me := recv[|recv| - 1];
      RecvTotalPositive(cfg, bk, recv[..|recv| - 1]);
      assert RecvInv(cfg, bk, me);
      ReadWorkPositive(cfg, bk, me);
      StockVersusStream(cfg, bk, me);
    }
  }

  lemma RecvMoveWorks(cfg: Config, bk: seq<Bucket>, me: Rank, q: seq<Msg>, paired: bool, src: seq<byte>, act: RecvAct)
    requires RecvInv(cfg, bk, me) && RecvCan(cfg.size, me, q, paired, act)
    ensures RecvWork(cfg, |bk|, RecvMove(cfg.size, me, q, paired, src, act)) < RecvWork(cfg, |bk|, me)
  {
    match act
    case Take => BegunWorks(cfg, |bk|, me, q[0], me.pc);
    case Copy(at) => CopiedWorks(cfg, |bk|, me, src, at);
    case Complete => CompletedWorks(cfg, bk, me);
    case _ =>
  }

  lemma RootStepWorks(cfg: Config, bk: seq<Bucket>, s: State, act: RootAct)
    requires RootCan(cfg, s, act) && SenderInv(cfg, bk, s.root) && RootInv(bk, s.root, s.pending, s.finished)
    ensures RootWork(cfg, |bk|, RootStep(cfg, s, act)) < RootWork(cfg, |bk|, s)
  {
  }

  lemma StepWorks(cfg: Config, s: State, act: Act)
    requires Ok(cfg) && Inv(cfg, s) && Can(cfg, s, act)
    ensures var k, t := |Buckets(cfg.ws, cfg.size)|, Step(cfg, s, act);
            RootWork(cfg, k, t) + RecvTotal(cfg, k, t.recv) < RootWork(cfg, k, s) + RecvTotal(cfg, k, s.recv)
  {
    var bk := Buckets(cfg.ws, cfg.size);
    match act
    case Root(a) => RootStepWorks(cfg, bk, s, a);
    case Recv(i, a) =>
      assert SpokeAt(cfg, bk, s, i);
      RecvMoveWorks(cfg, bk, s.recv[i], s.msgs[i], Paired(s, s.recv[i]), Sent(s), a);
      RecvTotalUpdate(cfg, |bk|, s.recv, i, Step(cfg, s, act).recv[i]);
  }

  lemma {:induction false} RunShort(cfg: Config, s: State, run: seq<Act>)
    requires Ok(cfg) && Inv(cfg, s) && Runs(cfg, s, run)
    ensures var k := |Buckets(cfg.ws, cfg.size)|;
            |run| <= RootWork(cfg, k, s) + RecvTotal(cfg, k, s.recv)
    decreases |run|
  {
    var bk := Buckets(cfg.ws, cfg.size);
    BucketsGood(cfg);
    if run == [] {
      forall i | 0 <= i < |s.recv| ensures RecvInv(cfg, bk, s.recv[i]) {
        assert SpokeAt(cfg, bk, s, i);
      }
      RecvTotalPositive(cfg, bk, s.recv);
    } else {
      StepKeeps(cfg, s, run[0]);
      StepWorks(cfg, s, run[0]);
      RunShort(cfg, Step(cfg, s, run[0]), run[1..]);
    }
  }

  lemma {:induction false} InitialWork(cfg: Config, k: nat, recv: seq<Rank>)
    requires forall i | 0 <= i < |recv| :: recv[i] == Blank(recv[i].a, recv[i].b, FirstMeta)
    ensures RecvTotal(cfg, k, recv) == |recv| * (k * (cfg.size + 1) + 2 * k + |cfg.ws| + 1)
  {
    if recv != [] {
      var n := |recv| - 1;
      var each := k * (cfg.size + 1) + 2 * k + |cfg.ws| + 1;
      InitialWork(cfg, k, recv[..n]);
      assert RecvWork(cfg, k, recv[n]) == each;
      assert n * each + each == (n + 1) * each;
    }
  }

  /** Every run of the broadcast ends. */
  lemma RunsEnd(cfg: Config, s: State, run: seq<Act>)
    requires Ok(cfg) && Init(cfg, s) && Runs(cfg, s, run)
    ensures var k, m := |Buckets(cfg.ws, cfg.size)|, |cfg.ws|;
            |run| <= m + 4 * k + 1 + (cfg.n - 1) * (k * (cfg.size + 1) + 2 * k + m + 1)
  {
    InitInv(cfg, s);
    RunShort(cfg, s, run);
    InitialWork(cfg, |Buckets(cfg.ws, cfg.size)|, s.recv);
  }

  /** A broadcast that cannot go on has delivered what the buckets show to every receiver: the stream itself
      exactly when no bucket has two weights of one name. */
  lemma StoppedBroadcastDelivered(cfg: Config, t: State, i: nat)
    requires Ok(cfg) && Reachable(cfg, t) && i < |t.recv|
    requires Stopped(cfg, t)
    ensures t.recv[i].out == ShownAll(Buckets(cfg.ws, cfg.size))
    ensures t.recv[i].out == cfg.ws <==> NamesApart(Buckets(cfg.ws, cfg.size))
  {
    DeadlockFree(cfg, t);
    YieldsPrefix(cfg, t, i);
  }
}
