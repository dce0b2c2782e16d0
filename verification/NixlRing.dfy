/** The NIXL weight transfer: rank 0 packs and publishes buckets, every other rank reads its
    predecessor's buffer while its own successor reads from it. A run is any sequence of actions of
    any ranks. */
module NixlRing {
  import opened Weights
  import opened Transfer

  datatype Notif = Notif(from: nat, key: Key)

  /** `msgs[r]` are the messages on their way to rank r, `notifs[r]` the notifications. */
  datatype State = State(ranks: seq<Rank>, msgs: seq<seq<Msg>>, notifs: seq<seq<Notif>>)

  datatype Act =
    | Fill | Publish(key: Key) | Ack | Finish
    | TakeFirst | SwapFirst | Take | Copy(i: nat) | Complete | Yield | Swap

  predicate Init(cfg: Config, s: State) {
    && |s.ranks| == |s.msgs| == |s.notifs| == cfg.n
    && (forall r | 0 <= r < cfg.n ::
          && |s.ranks[r].a| == |s.ranks[r].b| == cfg.size
          && s.ranks[r] == Blank(s.ranks[r].a, s.ranks[r].b, if r == 0 then Filling else FirstMeta))
    && (forall r | 0 <= r < cfg.n :: s.msgs[r] == [] && s.notifs[r] == [])
  }

  /** Guard of an action at rank r, whose inboxes are `q` and `nq`. */
  predicate Enabled(cfg: Config, r: nat, me: Rank, q: seq<Msg>, nq: seq<Notif>, act: Act) {
    match act
    case Fill => me.pc == Filling && !MustFlush(cfg, me)
    case Publish(_) => me.op == NoPub && ((me.pc == Filling && MustFlush(cfg, me)) || me.pc == Publishing)
    case Ack => me.op.Pub? && nq != []
                && ((me.pc == Filling && MustFlush(cfg, me)) || me.pc == Draining || AllYielded(me))
    case Finish => me.op == NoPub && (me.pc == Draining || (AllYielded(me) && me.last))
    case TakeFirst => me.pc == FirstMeta && q != []
    case Take => me.pc == NextMeta && q != []
    case Copy(i) => me.read.Reading? && i < cfg.size && i !in me.read.copied
    case Complete => me.read.Reading? && forall i | 0 <= i < cfg.size :: i in me.read.copied
    case SwapFirst => me.pc == FirstRead && me.read.ReadDone?
    case Yield => me.pc == Yielding && me.yielded < |me.meta|
    case Swap => AllYielded(me) && !me.last && me.op == NoPub && me.read.ReadDone?
  }

  /** What an action does: the rank's new record, whether it takes a message or a notification
      from its inbox, and what it sends to its successor and to its predecessor. */
  datatype Effect = Effect(me: Rank, takes: bool, pops: bool, sends: seq<Msg>, notifies: seq<Notif>)

  function Local(me: Rank): Effect {
    Effect(me, false, false, [], [])
  }

  function Move(cfg: Config, r: nat, me: Rank, q: seq<Msg>, nq: seq<Notif>, src: seq<byte>, act: Act): Effect
    requires Enabled(cfg, r, me, q, nq, act)
  {
    match act
    case Fill => Local(Filled(cfg, me))
    case Publish(key) =>
      if me.pc == Filling then
        Effect(Closed(cfg, me, key), false, false, [Announcement(cfg, me, key)], [])
      else
        var me' := me.(pc := if me.last then Yielding else NextMeta, pub := me.pub + 1);
        if r + 1 < cfg.n then
          Effect(me'.(op := Pub(key, me.cur)), false, false, [Msg(key, me.cur, me.meta, me.last)], [])
        else
          Local(me'.(acked := me.acked + 1))
    case Ack =>
      var me' := if nq[0].key == me.op.key then me.(op := NoPub, acked := me.acked + 1) else me.(pc := Failed);
      Effect(me', false, true, [], [])
    case Finish => Local(me.(pc := Done))
    case TakeFirst => Effect(Begun(me, q[0]).(pc := FirstRead), true, false, [], [])
    case Take => Effect(Begun(me, q[0]).(pc := Yielding), true, false, [], [])
    case Copy(i) => Local(Copied(me, src, i))
    case Complete => Effect(Completed(me), false, false, [], [Notif(r, me.read.key)])
    case SwapFirst => Local(Swapped(me, Publishing))
    case Swap => Local(Swapped(me, Publishing))
    case Yield => Local(Yielded(me))
  }

  /** The predecessor's buffer an in-flight read looks at. */
  function Source(s: State, r: nat): seq<byte>
    requires r < |s.ranks|
  {
    if r > 0 && s.ranks[r].read.Reading? then s.ranks[r - 1].Buf(s.ranks[r].read.slot) else []
  }

  predicate Shaped(cfg: Config, s: State) {
    |s.ranks| == |s.msgs| == |s.notifs| == cfg.n
  }

  predicate Can(cfg: Config, s: State, r: nat, act: Act) {
    Shaped(cfg, s) && r < cfg.n && Enabled(cfg, r, s.ranks[r], s.msgs[r], s.notifs[r], act)
  }

  function Step(cfg: Config, s: State, r: nat, act: Act): (t: State)
    requires Can(cfg, s, r, act)
    ensures Shaped(cfg, t)
    ensures forall k | 0 <= k < cfg.n && k != r :: t.ranks[k] == s.ranks[k]
  {
    var e := Move(cfg, r, s.ranks[r], s.msgs[r], s.notifs[r], Source(s, r), act);
    var msgs := s.msgs[r := if e.takes && s.msgs[r] != [] then s.msgs[r][1..] else s.msgs[r]];
    var notifs := s.notifs[r := if e.pops && s.notifs[r] != [] then s.notifs[r][1..] else s.notifs[r]];
    State(s.ranks[r := e.me],
          if r + 1 < cfg.n then msgs[r + 1 := msgs[r + 1] + e.sends] else msgs,
          if r > 0 then notifs[r - 1 := notifs[r - 1] + e.notifies] else notifs)
  }

  datatype Event = Event(rank: nat, act: Act)

  /** `run` can happen from `s`, one event after the other. */
  predicate Runs(cfg: Config, s: State, run: seq<Event>)
    decreases |run|
  {
    run == [] ||
    (Can(cfg, s, run[0].rank, run[0].act) && Runs(cfg, Step(cfg, s, run[0].rank, run[0].act), run[1..]))
  }

  function After(cfg: Config, s: State, run: seq<Event>): (t: State)
    requires Runs(cfg, s, run)
    ensures Shaped(cfg, s) ==> Shaped(cfg, t)
    decreases |run|
  {
    if run == [] then s else After(cfg, Step(cfg, s, run[0].rank, run[0].act), run[1..])
  }

  ghost predicate Reachable(cfg: Config, t: State) {
    exists s, run :: Init(cfg, s) && Runs(cfg, s, run) && After(cfg, s, run) == t
  }
}
