/** The synchronized handler, which copies a tensor on push and back on pop, and what both handlers share. */
module OffloadSync {
  import opened Wrappers
  import opened OffloadSpec
  import opened OffloadInvariant
  import opened OffloadTheorems

  datatype SyncSaved = OnCpu(elems: seq<int>, shape: seq<nat>) | Kept(t: Tensor)

  datatype SyncHandler = SyncHandler(groups: int, current: int, count: nat, state: map<Tag, SyncSaved>)

  function SyncPush(h: SyncHandler, t: Tensor, check: Tensor -> bool): Option<(SyncHandler, Tag)> {
    var tag := Tag(h.current, h.count);
    if tag in h.state then None
    else
      var saved := if h.current < h.groups && check(t) then OnCpu(t.elems, t.shape) else Kept(t);
      Some((h.(count := h.count + 1, state := h.state[tag := saved]), tag))
  }

  /** The address of a tensor copied back is not modelled. */
  function SyncPop(h: SyncHandler, tag: Tag): Option<(SyncHandler, Tensor)> {
    if tag !in h.state then None
    else
      var t := match h.state[tag]
               case OnCpu(elems, shape) => Tensor(0, elems, shape)
               case Kept(t) => t;
      Some((h.(state := h.state - {tag}), t))
  }

  function SyncCommitForward(h: SyncHandler): SyncHandler {
    h.(current := h.current + 1, count := 0)
  }

  function SyncCommitBackward(h: SyncHandler): Option<SyncHandler> {
    if h.current - 1 < 0 then None else Some(h.(current := h.current - 1))
  }

  class SynchronizedGroupOffloadHandler {
    var groups: int
    var current: int
    var count: nat
    var state: map<Tag, SyncSaved>
    const check: Tensor -> bool

    function View(): SyncHandler
      reads this
    {
      SyncHandler(groups, current, count, state)
    }

    constructor (numOffloadGroup: int, checker: Tensor -> bool)
      ensures View() == SyncHandler(numOffloadGroup, 0, 0, map[]) && check == checker
    {
      groups, check := numOffloadGroup, checker;
      current, count, state := 0, 0, map[];
    }

    method TensorPush(t: Tensor) returns (ok: bool, tag: Tag)
      modifies this`count, this`state
      ensures ok <==> SyncPush(old(View()), t, check).Some?
      ensures ok ==> (View(), tag) == SyncPush(old(View()), t, check).value
    {
      tag := Tag(current, count);
      count := count + 1;
      ok := tag !in state;
      if ok {
        state := state[tag := if current < groups && check(t) then OnCpu(t.elems, t.shape) else Kept(t)];
      }
    }

    method TensorPop(tag: Tag) returns (ok: bool, t: Tensor)
      modifies this`state
      ensures ok <==> SyncPop(old(View()), tag).Some?
      ensures ok ==> (View(), t) == SyncPop(old(View()), tag).value
    {
      t := Tensor(0, [], []);
      ok := tag in state;
      if ok {
        var saved := state[tag];
        state := state - {tag};
        t := if saved.OnCpu? then Tensor(0, saved.elems, saved.shape) else saved.t;
      }
    }

    method OnGroupCommitForward()
      modifies this`current, this`count
      ensures View() == SyncCommitForward(old(View()))
    {
      current := current + 1;
      count := 0;
    }

    method OnGroupCommitBackward() returns (ok: bool)
      modifies this`current
      ensures ok <==> SyncCommitBackward(old(View())).Some?
      ensures ok ==> View() == SyncCommitBackward(old(View())).value
    {
      current := current - 1;
      ok := current >= 0;
    }
  }

  // ----- the same runs

  datatype SyncRun = SyncRun(h: SyncHandler, at: Cursor, handles: map<Tag, Tag>, popped: seq<(Tag, Tensor)>)

  function SyncPerform(pl: Plan, check: Tensor -> bool, r: SyncRun, op: Op): Option<SyncRun>
    requires Allowed(pl, r.at, op)
  {
    var at := Next(pl, r.at, op);
    match op
    case PushNext =>
      var p := SyncPush(r.h, pl.acts[r.at.c][r.at.k], check);
      if p.None? then None
      else Some(SyncRun(p.value.0, at, r.handles[Tag(r.at.c, r.at.k) := p.value.1], r.popped))
    case CommitFore => Some(r.(h := SyncCommitForward(r.h), at := at))
    case CommitBack =>
      var p := SyncCommitBackward(r.h);
      if p.None? then None else Some(r.(h := p.value, at := at))
    case PopAt(i) =>
      var tag := Tag(r.at.c, i);
      if tag !in r.handles then None
      else
        var p := SyncPop(r.h, r.handles[tag]);
        if p.None? then None else Some(SyncRun(p.value.0, at, r.handles, r.popped + [(tag, p.value.1)]))
  }

  function SyncExec(pl: Plan, check: Tensor -> bool, r: SyncRun, ops: seq<Op>): Option<SyncRun>
    requires Shape(pl, r.at, ops)
    decreases |ops|
  {
    if ops == [] then Some(r)
    else
      var p := SyncPerform(pl, check, r, ops[0]);
      if p.None? then None else SyncExec(pl, check, p.value, ops[1..])
  }

  function SyncStart(groups: int): SyncRun {
    SyncRun(SyncHandler(groups, 0, 0, map[]), Fore(0, 0), map[], [])
  }

  /** Pushed and not yet popped. */
  predicate Held(pl: Plan, at: Cursor, tag: Tag) {
    Pushed(pl, at, tag) && !Gone(pl, at, tag)
  }

  /** The tensors chosen in the offload groups are on the CPU, all others are kept as they are. */
  predicate RightPlace(check: Tensor -> bool, groups: int, g: int, t: Tensor, saved: SyncSaved) {
    saved == if g < groups && check(t) then OnCpu(t.elems, t.shape) else Kept(t)
  }

  ghost predicate SyncOk(pl: Plan, check: Tensor -> bool, groups: int, r: SyncRun) {
    && r.h.current == r.at.c
    && (r.at.Fore? ==> r.h.count == r.at.k)
    && (r.at.Back? ==> r.at.c < |pl.acts| && forall i | i in r.at.left :: i < |pl.acts[r.at.c]|)
    && (forall tag :: tag in r.h.state <==> Held(pl, r.at, tag))
    && r.h.groups == groups
    && (forall tag | Held(pl, r.at, tag) ::
          RightPlace(check, groups, tag.group, pl.acts[tag.group][tag.index], r.h.state[tag]))
    && (forall tag | Pushed(pl, r.at, tag) :: tag in r.handles && r.handles[tag] == tag)
    && AllRestored(pl.acts, r.popped)
  }

  lemma HeldAfterPush(pl: Plan, c: nat, k: nat, tag: Tag)
    requires Allowed(pl, Fore(c, k), PushNext)
    ensures Held(pl, Fore(c, k + 1), tag) <==> Held(pl, Fore(c, k), tag) || tag == Tag(c, k)
  {
  }

  lemma HeldAfterCommit(pl: Plan, at: Cursor, op: Op, tag: Tag)
    requires Allowed(pl, at, op) && (op == CommitFore || op == CommitBack)
    ensures Held(pl, Next(pl, at, op), tag) <==> Held(pl, at, tag)
    ensures Pushed(pl, Next(pl, at, op), tag) <==> Pushed(pl, at, tag)
  {
  }

  lemma HeldAfterPop(pl: Plan, c: nat, left: set<nat>, i: nat, tag: Tag)
    requires i in left
    ensures Held(pl, Back(c, left - {i}), tag) <==> Held(pl, Back(c, left), tag) && tag != Tag(c, i)
  {
  }

  lemma SyncPushKeeps(pl: Plan, check: Tensor -> bool, groups: int, r: SyncRun)
    requires SyncOk(pl, check, groups, r) && Allowed(pl, r.at, PushNext)
    ensures SyncPerform(pl, check, r, PushNext).Some?
    ensures SyncOk(pl, check, groups, SyncPerform(pl, check, r, PushNext).value)
  {
    forall tag { HeldAfterPush(pl, r.at.c, r.at.k, tag); }
  }

  lemma SyncPopKeeps(pl: Plan, check: Tensor -> bool, groups: int, r: SyncRun, i: nat)
    requires SyncOk(pl, check, groups, r) && Allowed(pl, r.at, PopAt(i))
    ensures SyncPerform(pl, check, r, PopAt(i)).Some?
    ensures SyncOk(pl, check, groups, SyncPerform(pl, check, r, PopAt(i)).value)
  {
    forall tag { HeldAfterPop(pl, r.at.c, r.at.left, i, tag); }
    assert Held(pl, r.at, Tag(r.at.c, i));
  }

  lemma SyncCommitKeeps(pl: Plan, check: Tensor -> bool, groups: int, r: SyncRun, op: Op)
    requires SyncOk(pl, check, groups, r) && Allowed(pl, r.at, op) && (op == CommitFore || op == CommitBack)
    ensures SyncPerform(pl, check, r, op).Some? && SyncOk(pl, check, groups, SyncPerform(pl, check, r, op).value)
  {
    forall tag { HeldAfterCommit(pl, r.at, op, tag); }
  }

  lemma SyncStepKeeps(pl: Plan, check: Tensor -> bool, groups: int, r: SyncRun, op: Op)
    requires SyncOk(pl, check, groups, r) && Allowed(pl, r.at, op)
    ensures SyncPerform(pl, check, r, op).Some? && SyncOk(pl, check, groups, SyncPerform(pl, check, r, op).value)
  {
    match op
    case PushNext => SyncPushKeeps(pl, check, groups, r);
    case PopAt(i) => SyncPopKeeps(pl, check, groups, r, i);
    case _ => SyncCommitKeeps(pl, check, groups, r, op);
  }

  /** With the synchronized handler no assert fails, exactly the tensors chosen in the offload groups are on the
      CPU, and every pop returns the tensor pushed, whatever is chosen and whatever the keys. */
  lemma {:induction false} SyncRestores(pl: Plan, check: Tensor -> bool, groups: int, r: SyncRun, ops: seq<Op>)
    requires SyncOk(pl, check, groups, r) && Shape(pl, r.at, ops)
    ensures var p := SyncExec(pl, check, r, ops);
            p.Some? && SyncOk(pl, check, groups, p.value)
    decreases |ops|
  {
    if ops != [] {
      SyncStepKeeps(pl, check, groups, r, ops[0]);
      SyncRestores(pl, check, groups, SyncPerform(pl, check, r, ops[0]).value, ops[1..]);
    }
  }

  // ----- agreement

  function TagsOf(popped: seq<(Tag, Tensor)>): seq<Tag> {
    seq(|popped|, n requires 0 <= n < |popped| => popped[n].0)
  }

  /** Both handlers pop the same tags in the same order. */
  lemma {:induction false} SameTags(pl: Plan, check: Tensor -> bool, r: Run, q: SyncRun, ops: seq<Op>)
    requires Shape(pl, r.at, ops) && r.at == q.at && TagsOf(r.popped) == TagsOf(q.popped)
    requires Exec(pl, r, ops).Some? && SyncExec(pl, check, q, ops).Some?
    ensures TagsOf(Exec(pl, r, ops).value.popped) == TagsOf(SyncExec(pl, check, q, ops).value.popped)
    decreases |ops|
  {
    if ops != [] {
      var r', q' := Perform(pl, r, ops[0]).value, SyncPerform(pl, check, q, ops[0]).value;
      assert TagsOf(r'.popped) == TagsOf(q'.popped) by {
        if ops[0].PopAt? {
          assert TagsOf(r'.popped) == TagsOf(r.popped) + [Tag(r.at.c, ops[0].i)];
          assert TagsOf(q'.popped) == TagsOf(q.popped) + [Tag(r.at.c, ops[0].i)];
        }
      }
      SameTags(pl, check, r', q', ops[1..]);
    }
  }

  /** With sound keys the asynchronous handler returns, pop by pop, what the synchronized one returns. */
  lemma HandlersAgree(G: nat, L: nat, acts: seq<seq<Tensor>>, check: Tensor -> bool, ops: seq<Op>)
    requires ValidActs(G, L, acts) && KeysSound(G, L, acts) && Shape(PlanOf(G, L, acts), Fore(0, 0), ops)
    ensures var pl := PlanOf(G, L, acts);
            var r, q := Exec(pl, Start0(Fresh(G, L)), ops), SyncExec(pl, check, SyncStart(G), ops);
            && r.Some? && q.Some? && |r.value.popped| == |q.value.popped|
            && forall n | 0 <= n < |r.value.popped| ::
                 && r.value.popped[n].0 == q.value.popped[n].0
                 && SameValue(r.value.popped[n].1, q.value.popped[n].1)
  {
    var pl := PlanOf(G, L, acts);
    RunRestores(G, L, acts, ops);
    assert SyncOk(pl, check, G, SyncStart(G));
    SyncRestores(pl, check, G, SyncStart(G), ops);
    SameTags(pl, check, Start0(Fresh(G, L)), SyncStart(G), ops);
    var r, q := Exec(pl, Start0(Fresh(G, L)), ops).value, SyncExec(pl, check, SyncStart(G), ops).value;
    assert |TagsOf(r.popped)| == |TagsOf(q.popped)|;
    forall n | 0 <= n < |r.popped| ensures r.popped[n].0 == q.popped[n].0 && SameValue(r.popped[n].1, q.popped[n].1) {
      assert TagsOf(r.popped)[n] == TagsOf(q.popped)[n];
    }
  }
}
