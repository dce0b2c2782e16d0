/** How many activation groups the asynchronous handler keeps on the device. */
module OffloadMemory {
  import opened OffloadSpec
  import opened OffloadInvariant
  import opened OffloadSteps
  import opened OffloadTheorems

  /** Groups of which the handler references a device tensor. */
  function DeviceGroups(h: Handler): set<int> {
    (set e | e in h.state && e.saved.OnDevice? :: e.tag.group)
    + (set tag | tag in h.buf && h.buf[tag].Some? :: tag.group)
  }

  lemma OneShortWindows(L: nat, j: nat)
    requires L >= 3 && j < L - 1
    ensures Windows(L, L - 1)[j] == j + 1
  {
    assert L / (L - 1) == 1 && L % (L - 1) == 1 by {
      assert L == 1 * (L - 1) + 1;
    }
  }

  lemma TwoGroups(h: Handler, c: int)
    requires forall e | e in h.state && e.saved.OnDevice? :: c - 1 <= e.tag.group <= c
    requires forall tag | tag in h.buf && h.buf[tag].Some? :: c - 1 <= tag.group <= c
    ensures |DeviceGroups(h)| <= 2
  {
    AtMostTwo(set e | e in h.state && e.saved.OnDevice? :: e.tag.group,
              set tag | tag in h.buf && h.buf[tag].Some? :: tag.group, c);
  }

  lemma AtMostTwo(x: set<int>, y: set<int>, c: int)
    requires forall g | g in x || g in y :: g == c - 1 || g == c
    ensures |x + y| <= 2
  {
    var d, both := x + y, {c - 1, c};
    forall g | g in d ensures g in both {
    }
    var others := both - d;
    assert d + others == both;
    assert d !! others;
    assert |d + others| == |d| + |others|;
    assert |both| == 2;
  }

  lemma FwdTwoGroups(pl: Plan, h: Handler, c: nat, k: nat)
    requires Valid(pl) && pl.L >= 3 && pl.G == pl.L - 1 && forall j | 0 <= j < pl.G :: pl.win[j] == j + 1
    requires Fwd(pl, h, c, k)
    ensures |DeviceGroups(h)| <= 2
  {
    forall e | e in h.state && e.saved.OnDevice? ensures c - 1 <= e.tag.group <= c {
      var p :| 0 <= p < |h.state| && h.state[p] == e;
      assert Present(pl, c, Upto(k), h.state[p].tag);
      assert SavedOk(pl, if c == 0 then 0 else Min(h.offloaded + 1, pl.G), false, h.state[p]);
    }
    forall tag | tag in h.buf && h.buf[tag].Some? ensures c - 1 <= tag.group <= c {
      assert SlotOk(pl, h.buf, c, Upto(k), h.offloaded, tag);
    }
    TwoGroups(h, c);
  }

  lemma BwdTwoGroups(pl: Plan, h: Handler, c: nat, left: set<nat>, m: nat)
    requires Valid(pl) && pl.L >= 3 && pl.G == pl.L - 1 && forall j | 0 <= j < pl.G :: pl.win[j] == j + 1
    requires Bwd(pl, h, c, left, m)
    ensures |DeviceGroups(h)| <= 2
  {
    forall e | e in h.state && e.saved.OnDevice? ensures c - 1 <= e.tag.group <= c {
      var p :| 0 <= p < |h.state| && h.state[p] == e;
      assert Present(pl, c, left, h.state[p].tag) && SavedOk(pl, m, true, h.state[p]);
    }
    forall tag | tag in h.buf ensures h.buf[tag].None? {
      assert SlotOk(pl, h.buf, c, left, pl.G, tag);
    }
    TwoGroups(h, c);
  }

  /** Any operation raises or leaves the run in order, whatever the keys. */
  lemma StepStaysOk(pl: Plan, r: Run, op: Op)
    requires Valid(pl) && RunOk(pl, r) && Allowed(pl, r.at, op)
    ensures var p := Perform(pl, r, op); p.None? || RunOk(pl, p.value)
  {
    match op
    case PushNext => PushRuns(pl, r);
    case CommitFore => CommitForeRuns(pl, r);
    case CommitBack =>
      var m := BetweenGroups(pl, r.h, r.at);
      if Reloads(pl, r.at.c, m) && Moved(pl, m - 1) && !ViewsFit(pl, m - 1) {
        CommitBackwardFails(pl, r.h, r.at.c, m);
      } else {
        var m' := CommitBackRuns(pl, r, m);
      }
    case PopAt(i) =>
      var m: nat :| Bwd(pl, r.h, r.at.c, r.at.left, m);
      PopRuns(pl, r, i, m);
  }

  lemma {:induction false} RunStaysOk(pl: Plan, r: Run, ops: seq<Op>)
    requires Valid(pl) && RunOk(pl, r) && Shape(pl, r.at, ops)
    ensures var p := Exec(pl, r, ops); p.None? || RunOk(pl, p.value)
    decreases |ops|
  {
    if ops != [] {
      StepStaysOk(pl, r, ops[0]);
      var p := Perform(pl, r, ops[0]);
      if p.Some? {
        RunStaysOk(pl, p.value, ops[1..]);
      }
    }
  }

  lemma RunTwoGroups(pl: Plan, r: Run)
    requires Valid(pl) && pl.L >= 3 && pl.G == pl.L - 1 && forall j | 0 <= j < pl.G :: pl.win[j] == j + 1
    requires RunOk(pl, r)
    ensures |DeviceGroups(r.h)| <= 2
  {
    match r.at {
      case Fore(c, k) => FwdTwoGroups(pl, r.h, c, k);
      case Back(c, left) =>
        var m: nat :| Bwd(pl, r.h, c, left, m);
        BwdTwoGroups(pl, r.h, c, left, m);
    }
  }

  /** As the handler is set up for L layers, L - 1 of them offload groups, at most two activation groups
      are on the device at every point a training step reaches, whatever the tensors and their keys. */
  lemma AtMostTwoGroups(L: nat, acts: seq<seq<Tensor>>, ops: seq<Op>)
    requires L >= 3 && ValidActs(L - 1, L, acts)
    requires Shape(PlanOf(L - 1, L, acts), Fore(0, 0), ops)
    ensures var r := Exec(PlanOf(L - 1, L, acts), Start0(Fresh(L - 1, L)), ops);
            r.Some? ==> |DeviceGroups(r.value.h)| <= 2
  {
    var pl := PlanOf(L - 1, L, acts);
    PlanValid(L - 1, L, acts);
    StartOk(pl, Fresh(L - 1, L));
    RunStaysOk(pl, Start0(Fresh(L - 1, L)), ops);
    forall j: nat | j < pl.G ensures pl.win[j] == j + 1 {
      OneShortWindows(L, j);
    }
    var r := Exec(pl, Start0(Fresh(L - 1, L)), ops);
    if r.Some? {
      RunTwoGroups(pl, r.value);
    }
  }
}
