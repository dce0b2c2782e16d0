/** A training step as a run: forward, the tensors of every group are pushed and the group is committed;
    backward, the groups are committed in reverse order and the tensors of each are popped, in any order. */
module OffloadTheorems {
  import opened Wrappers
  import opened OffloadSpec
  import opened OffloadInvariant
  import opened OffloadSteps

  datatype Op = PushNext | CommitFore | CommitBack | PopAt(i: nat)

  /** Where a run stands: k tensors of group c pushed, or group c being popped with `left` to go. */
  datatype Cursor = Fore(c: nat, k: nat) | Back(c: nat, left: set<nat>)

  /** `handles` is what the pushes returned, `popped` what the pops returned. */
  datatype Run = Run(h: Handler, at: Cursor, handles: map<Tag, Handle>, popped: seq<(Tag, Tensor)>)

  predicate Allowed(pl: Plan, at: Cursor, op: Op) {
    match (at, op)
    case (Fore(c, k), PushNext) => c < |pl.acts| && k < |pl.acts[c]|
    case (Fore(c, k), CommitFore) => c < |pl.acts| && k == |pl.acts[c]|
    case (Fore(c, k), CommitBack) => 0 < c == |pl.acts|
    case (Back(c, left), CommitBack) => left == {} && 0 < c <= |pl.acts|
    case (Back(c, left), PopAt(i)) => i in left
    case _ => false
  }

  function Next(pl: Plan, at: Cursor, op: Op): Cursor
    requires Allowed(pl, at, op)
  {
    match op
    case PushNext => Fore(at.c, at.k + 1)
    case CommitFore => Fore(at.c + 1, 0)
    case CommitBack => Back(at.c - 1, Upto(|pl.acts[at.c - 1]|))
    case PopAt(i) => Back(at.c, at.left - {i})
  }

  function Perform(pl: Plan, r: Run, op: Op): Option<Run>
    requires Allowed(pl, r.at, op)
  {
    var at := Next(pl, r.at, op);
    match op
    case PushNext =>
      var p := Push(r.h, pl.acts[r.at.c][r.at.k], true);
      if p.None? then None
      else Some(Run(p.value.0, at, r.handles[Tag(r.at.c, r.at.k) := p.value.1], r.popped))
    case CommitFore =>
      var p := CommitForward(r.h);
      if p.None? then None else Some(r.(h := p.value, at := at))
    case CommitBack =>
      var p := CommitBackward(r.h);
      if p.None? then None else Some(r.(h := p.value, at := at))
    case PopAt(i) =>
      var tag := Tag(r.at.c, i);
      if tag !in r.handles then None
      else
        var p := Pop(r.h, r.handles[tag]);
        if p.None? then None else Some(Run(p.value.0, at, r.handles, r.popped + [(tag, p.value.1)]))
  }

  /** The operations have the shape of a training step. */
  predicate Shape(pl: Plan, at: Cursor, ops: seq<Op>)
    decreases |ops|
  {
    ops == [] || (Allowed(pl, at, ops[0]) && Shape(pl, Next(pl, at, ops[0]), ops[1..]))
  }

  function Exec(pl: Plan, r: Run, ops: seq<Op>): Option<Run>
    requires Shape(pl, r.at, ops)
    decreases |ops|
  {
    if ops == [] then Some(r)
    else
      var p := Perform(pl, r, ops[0]);
      if p.None? then None else Exec(pl, p.value, ops[1..])
  }

  function Start0(h: Handler): Run {
    Run(h, Fore(0, 0), map[], [])
  }

  function EndOf(pl: Plan, at: Cursor, ops: seq<Op>): Cursor
    requires Shape(pl, at, ops)
    decreases |ops|
  {
    if ops == [] then at else EndOf(pl, Next(pl, at, ops[0]), ops[1..])
  }

  predicate WholeStep(pl: Plan, ops: seq<Op>) {
    Shape(pl, Fore(0, 0), ops) && EndOf(pl, Fore(0, 0), ops) == Back(0, {})
  }

  function PlanOf(G: nat, L: nat, acts: seq<seq<Tensor>>): Plan
    requires G > 0
  {
    Plan(G, L, Windows(L, G), acts)
  }

  ghost predicate ValidActs(G: nat, L: nat, acts: seq<seq<Tensor>>) {
    && 1 <= G <= L == |acts|
    && forall g, i | 0 <= g < L && 0 <= i < |acts[g]| :: WellFormed(acts[g][i])
  }

  lemma PlanValid(G: nat, L: nat, acts: seq<seq<Tensor>>)
    requires ValidActs(G, L, acts)
    ensures Valid(PlanOf(G, L, acts))
    ensures Fresh(G, L) == Handler(G, L, AsMap(PlanOf(G, L, acts).win), 0, 0, [], map[], 0, map[])
    ensures Fwd(PlanOf(G, L, acts), Fresh(G, L), 0, 0)
  {
    ClosedFormGood(L, G);
    var pl := PlanOf(G, L, acts);
    forall tag ensures !Present(pl, 0, Upto(0), tag) {
    }
  }

  // ----- what holds along a run

  predicate Whole(pl: Plan, tag: Tag) {
    0 <= tag.group < |pl.acts| && tag.index < |pl.acts[tag.group]|
  }

  /** The tensor has been popped before the run reached this point. */
  predicate Gone(pl: Plan, at: Cursor, tag: Tag) {
    Whole(pl, tag) && at.Back? && (tag.group > at.c || (tag.group == at.c && tag.index !in at.left))
  }

  ghost predicate PoppedOk(pl: Plan, popped: seq<(Tag, Tensor)>) {
    forall n | 0 <= n < |popped| ::
      Whole(pl, popped[n].0) &&
      var t := pl.acts[popped[n].0.group][popped[n].0.index];
      popped[n].1.shape == t.shape && popped[n].1.elems == Expected(pl, popped[n].0.group, popped[n].0.index)
  }

  ghost predicate Covers(pl: Plan, at: Cursor, popped: seq<(Tag, Tensor)>) {
    forall tag | Gone(pl, at, tag) :: exists n :: 0 <= n < |popped| && popped[n].0 == tag
  }

  predicate Pushed(pl: Plan, at: Cursor, tag: Tag) {
    Whole(pl, tag) && (at.Back? || tag.group < at.c || (tag.group == at.c && tag.index < at.k))
  }

  ghost predicate HandlesOk(pl: Plan, at: Cursor, handles: map<Tag, Handle>) {
    forall tag | Pushed(pl, at, tag) :: tag in handles && handles[tag] == Tagged(tag)
  }

  ghost predicate HandlerOk(pl: Plan, h: Handler, at: Cursor) {
    match at
    case Fore(c, k) => Fwd(pl, h, c, k)
    case Back(c, left) =>
      c < pl.L == |pl.acts| && (forall i | i in left :: i < |pl.acts[c]|) && exists m: nat :: Bwd(pl, h, c, left, m)
  }

  ghost predicate RunOk(pl: Plan, r: Run) {
    && HandlerOk(pl, r.h, r.at)
    && HandlesOk(pl, r.at, r.handles)
    && PoppedOk(pl, r.popped)
    && Covers(pl, r.at, r.popped)
  }

  /** The reload this commit would do, if any, succeeds. */
  ghost predicate ReloadFits(pl: Plan) {
    forall g: nat | g < |pl.acts| && Moved(pl, g) :: ViewsFit(pl, g)
  }

  lemma HandlesPush(pl: Plan, c: nat, k: nat, handles: map<Tag, Handle>)
    requires HandlesOk(pl, Fore(c, k), handles)
    ensures HandlesOk(pl, Fore(c, k + 1), handles[Tag(c, k) := Tagged(Tag(c, k))])
  {
    forall tag | Pushed(pl, Fore(c, k + 1), tag) && tag != Tag(c, k) ensures Pushed(pl, Fore(c, k), tag) {
    }
  }

  lemma PushRuns(pl: Plan, r: Run)
    requires Valid(pl) && RunOk(pl, r) && Allowed(pl, r.at, PushNext)
    ensures Perform(pl, r, PushNext).Some? && RunOk(pl, Perform(pl, r, PushNext).value)
    ensures Perform(pl, r, PushNext).value.at.Fore?
  {
    var c, k := r.at.c, r.at.k;
    PushKeeps(pl, r.h, c, k);
    HandlesPush(pl, c, k, r.handles);
    var p := Push(r.h, pl.acts[c][k], true).value;
    assert HandlerOk(pl, p.0, Fore(c, k + 1));
  }

  lemma HandlesFore(pl: Plan, c: nat, handles: map<Tag, Handle>)
    requires c < |pl.acts| && HandlesOk(pl, Fore(c, |pl.acts[c]|), handles)
    ensures HandlesOk(pl, Fore(c + 1, 0), handles)
  {
    forall tag | Pushed(pl, Fore(c + 1, 0), tag) ensures Pushed(pl, Fore(c, |pl.acts[c]|), tag) {
    }
  }

  lemma CommitForeHandler(pl: Plan, h: Handler, c: nat) returns (h': Handler)
    requires Valid(pl) && c < |pl.acts| && HandlerOk(pl, h, Fore(c, |pl.acts[c]|))
    ensures CommitForward(h) == Some(h') && HandlerOk(pl, h', Fore(c + 1, 0))
  {
    h' := CommitForwardKeeps(pl, h, c);
  }

  lemma CommitForeRuns(pl: Plan, r: Run)
    requires Valid(pl) && RunOk(pl, r) && Allowed(pl, r.at, CommitFore)
    ensures Perform(pl, r, CommitFore).Some? && RunOk(pl, Perform(pl, r, CommitFore).value)
    ensures Perform(pl, r, CommitFore).value.at.Fore?
  {
    HandlesFore(pl, r.at.c, r.handles);
    var h := CommitForeHandler(pl, r.h, r.at.c);
  }

  /** Both the first backward commit, at the turn, and the later ones find the handler between groups. */
  lemma BetweenGroups(pl: Plan, h: Handler, at: Cursor) returns (m: nat)
    requires Valid(pl) && HandlerOk(pl, h, at) && Allowed(pl, at, CommitBack)
    ensures at.c <= pl.L && Bwd(pl, h, at.c, {}, m)
  {
    if at.Fore? {
      TurnKeeps(pl, h);
      m := pl.G;
    } else {
      m :| Bwd(pl, h, at.c, at.left, m);
    }
  }

  lemma CoversCommit(pl: Plan, at: Cursor, popped: seq<(Tag, Tensor)>)
    requires Allowed(pl, at, CommitBack) && Covers(pl, at, popped)
    ensures Covers(pl, Next(pl, at, CommitBack), popped)
  {
    forall tag | Gone(pl, Next(pl, at, CommitBack), tag) ensures exists n :: 0 <= n < |popped| && popped[n].0 == tag {
      assert Gone(pl, at, tag);
    }
  }

  lemma HandlesCommit(pl: Plan, at: Cursor, handles: map<Tag, Handle>)
    requires Allowed(pl, at, CommitBack) && HandlesOk(pl, at, handles)
    ensures HandlesOk(pl, Next(pl, at, CommitBack), handles)
  {
    forall tag | Pushed(pl, Next(pl, at, CommitBack), tag) ensures Pushed(pl, at, tag) {
    }
  }

  lemma CommitBackHandler(pl: Plan, h: Handler, at: Cursor, m: nat) returns (h': Handler, m': nat)
    requires Valid(pl) && Allowed(pl, at, CommitBack) && at.c <= pl.L && Bwd(pl, h, at.c, {}, m)
    requires Reloads(pl, at.c, m) && Moved(pl, m - 1) ==> ViewsFit(pl, m - 1)
    ensures m' == if Reloads(pl, at.c, m) then m - 1 else m
    ensures CommitBackward(h) == Some(h') && Bwd(pl, h', at.c - 1, Upto(|pl.acts[at.c - 1]|), m')
    ensures HandlerOk(pl, h', Next(pl, at, CommitBack))
  {
    CommitBackwardKeeps(pl, h, at.c, m);
    h' := CommitBackward(h).value;
    m' := if Reloads(pl, at.c, m) then m - 1 else m;
  }

  /** A backward commit that goes well leaves the run in order; `m'` groups are then still on the CPU. */
  lemma CommitBackRuns(pl: Plan, r: Run, m: nat) returns (m': nat)
    requires Valid(pl) && RunOk(pl, r) && Allowed(pl, r.at, CommitBack)
    requires r.at.c <= pl.L && Bwd(pl, r.h, r.at.c, {}, m)
    requires Reloads(pl, r.at.c, m) && Moved(pl, m - 1) ==> ViewsFit(pl, m - 1)
    ensures m' == if Reloads(pl, r.at.c, m) then m - 1 else m
    ensures Perform(pl, r, CommitBack).Some? && RunOk(pl, Perform(pl, r, CommitBack).value)
    ensures var r' := Perform(pl, r, CommitBack).value;
            r'.at.Back? && Bwd(pl, r'.h, r'.at.c, r'.at.left, m')
  {
    var h';
    h', m' := CommitBackHandler(pl, r.h, r.at, m);
    CoversCommit(pl, r.at, r.popped);
    HandlesCommit(pl, r.at, r.handles);
  }

  lemma CoversPop(pl: Plan, c: nat, left: set<nat>, i: nat, popped: seq<(Tag, Tensor)>, t: Tensor)
    requires Covers(pl, Back(c, left), popped)
    ensures Covers(pl, Back(c, left - {i}), popped + [(Tag(c, i), t)])
  {
    var popped' := popped + [(Tag(c, i), t)];
    forall tag | Gone(pl, Back(c, left - {i}), tag) ensures exists n :: 0 <= n < |popped'| && popped'[n].0 == tag {
      if tag == Tag(c, i) {
        assert popped'[|popped|].0 == tag;
      } else {
        assert Gone(pl, Back(c, left), tag);
        var n :| 0 <= n < |popped| && popped[n].0 == tag;
        assert popped'[n].0 == tag;
      }
    }
  }

  lemma PopRuns(pl: Plan, r: Run, i: nat, m: nat)
    requires Valid(pl) && RunOk(pl, r) && Allowed(pl, r.at, PopAt(i)) && Bwd(pl, r.h, r.at.c, r.at.left, m)
    ensures Perform(pl, r, PopAt(i)).Some? && RunOk(pl, Perform(pl, r, PopAt(i)).value)
    ensures var r' := Perform(pl, r, PopAt(i)).value;
            r'.at.Back? && Bwd(pl, r'.h, r'.at.c, r'.at.left, m)
  {
    var c, left := r.at.c, r.at.left;
    assert r.handles[Tag(c, i)] == Tagged(Tag(c, i)) by {
      assert Pushed(pl, r.at, Tag(c, i));
    }
    PopKeeps(pl, r.h, c, left, m, i);
    var p := Pop(r.h, Tagged(Tag(c, i))).value;
    CoversPop(pl, c, left, i, r.popped, p.1);
    assert PoppedOk(pl, r.popped + [(Tag(c, i), p.1)]);
    assert HandlerOk(pl, p.0, Back(c, left - {i}));
  }

  /** Where every reload fits, every operation goes well. */
  lemma OpRuns(pl: Plan, r: Run, op: Op) returns (r': Run)
    requires Valid(pl) && RunOk(pl, r) && Allowed(pl, r.at, op) && ReloadFits(pl)
    ensures Perform(pl, r, op) == Some(r') && RunOk(pl, r') && r'.at == Next(pl, r.at, op)
  {
    match op {
      case PushNext => PushRuns(pl, r);
      case CommitFore => CommitForeRuns(pl, r);
      case CommitBack =>
        var m := BetweenGroups(pl, r.h, r.at);
        var m' := CommitBackRuns(pl, r, m);
      case PopAt(i) =>
        var m: nat :| Bwd(pl, r.h, r.at.c, r.at.left, m);
        PopRuns(pl, r, i, m);
    }
    r' := Perform(pl, r, op).value;
  }

  lemma {:induction false} RunsOn(pl: Plan, r: Run, ops: seq<Op>)
    requires Valid(pl) && RunOk(pl, r) && Shape(pl, r.at, ops) && ReloadFits(pl)
    ensures Exec(pl, r, ops).Some? && RunOk(pl, Exec(pl, r, ops).value)
    ensures Exec(pl, r, ops).value.at == EndOf(pl, r.at, ops)
    decreases |ops|
  {
    if ops != [] {
      var r' := OpRuns(pl, r, ops[0]);
      RunsOn(pl, r', ops[1..]);
    }
  }

  lemma StartOk(pl: Plan, h: Handler)
    requires Valid(pl) && Fwd(pl, h, 0, 0)
    ensures RunOk(pl, Start0(h))
  {
  }

  // ----- when keys are sound

  /** Within a group, one key stands for one list of elements. */
  predicate KeySound(ts: seq<Tensor>) {
    forall i, j | 0 <= i < |ts| && 0 <= j < |ts| && ts[i].key == ts[j].key :: ts[i].elems == ts[j].elems
  }

  lemma {:induction false} FirstElemsFound(ts: seq<Tensor>, i: nat)
    requires i < |ts|
    ensures exists j :: 0 <= j <= i && ts[j].key == ts[i].key && FirstElems(ts, ts[i].key) == ts[j].elems
  {
    if ts[0].key != ts[i].key {
      FirstElemsFound(ts[1..], i - 1);
      var j :| 0 <= j <= i - 1 && ts[1..][j].key == ts[i].key && FirstElems(ts[1..], ts[i].key) == ts[1..][j].elems;
      assert ts[j + 1].key == ts[i].key;
    }
  }

  /** The copies kept for a group are right for every tensor exactly when its keys are sound. */
  lemma KeySoundIff(ts: seq<Tensor>)
    ensures KeySound(ts) <==> forall i | 0 <= i < |ts| :: FirstElems(ts, ts[i].key) == ts[i].elems
  {
    if KeySound(ts) {
      forall i | 0 <= i < |ts| ensures FirstElems(ts, ts[i].key) == ts[i].elems {
        FirstElemsFound(ts, i);
      }
    }
  }

  ghost predicate KeysSound(G: nat, L: nat, acts: seq<seq<Tensor>>)
    requires G > 0
  {
    forall g: nat | g < |acts| && Moved(PlanOf(G, L, acts), g) :: KeySound(acts[g])
  }

  predicate SameValue(t: Tensor, u: Tensor) {
    t.shape == u.shape && t.elems == u.elems
  }

  /** Every pop returned the tensor pushed. */
  ghost predicate AllRestored(acts: seq<seq<Tensor>>, popped: seq<(Tag, Tensor)>) {
    forall n | 0 <= n < |popped| ::
      var tag := popped[n].0;
      0 <= tag.group < |acts| && tag.index < |acts[tag.group]| && SameValue(popped[n].1, acts[tag.group][tag.index])
  }

  lemma SoundFits(pl: Plan)
    requires 1 <= pl.G && forall g: nat | g < |pl.acts| && Moved(pl, g) :: KeySound(pl.acts[g])
    ensures ReloadFits(pl)
    ensures forall g: nat, i: nat | g < |pl.acts| && i < |pl.acts[g]| :: Expected(pl, g, i) == pl.acts[g][i].elems
  {
    forall g: nat | g < |pl.acts| && Moved(pl, g) ensures ViewsFit(pl, g) {
      KeySoundIff(pl.acts[g]);
    }
    forall g: nat, i: nat | g < |pl.acts| && i < |pl.acts[g]| ensures Expected(pl, g, i) == pl.acts[g][i].elems {
      KeySoundIff(pl.acts[g]);
    }
  }

  /** With sound keys, at every point of every training step: no assert or lookup has failed, and every pop
      so far has returned the tensor pushed. */
  lemma RunRestores(G: nat, L: nat, acts: seq<seq<Tensor>>, ops: seq<Op>)
    requires ValidActs(G, L, acts) && KeysSound(G, L, acts) && Shape(PlanOf(G, L, acts), Fore(0, 0), ops)
    ensures var r := Exec(PlanOf(G, L, acts), Start0(Fresh(G, L)), ops);
            r.Some? && AllRestored(acts, r.value.popped)
  {
    var pl := PlanOf(G, L, acts);
    PlanValid(G, L, acts);
    StartOk(pl, Fresh(G, L));
    SoundFits(pl);
    RunsOn(pl, Start0(Fresh(G, L)), ops);
  }

  lemma WholeStepEnds(pl: Plan, h: Handler, ops: seq<Op>)
    requires Valid(pl) && Fwd(pl, h, 0, 0) && ReloadFits(pl) && WholeStep(pl, ops)
    ensures var r := Exec(pl, Start0(h), ops);
            && r.Some? && RunOk(pl, r.value) && r.value.at == Back(0, {})
            && r.value.h == Handler(pl.G, pl.L, AsMap(pl.win), 0, 0, [], map[], 0, map[])
  {
    StartOk(pl, h);
    RunsOn(pl, Start0(h), ops);
    var r := Exec(pl, Start0(h), ops).value;
    var m: nat :| Bwd(pl, r.h, 0, {}, m);
    EndIsFresh(pl, r.h, m);
  }

  /** A whole step pops every tensor pushed and leaves the handler as it was when new. */
  lemma StepRestores(G: nat, L: nat, acts: seq<seq<Tensor>>, ops: seq<Op>)
    requires ValidActs(G, L, acts) && KeysSound(G, L, acts) && WholeStep(PlanOf(G, L, acts), ops)
    ensures var r := Exec(PlanOf(G, L, acts), Start0(Fresh(G, L)), ops);
            && r.Some? && r.value.h == Fresh(G, L) && AllRestored(acts, r.value.popped)
            && forall g, i | 0 <= g < L && 0 <= i < |acts[g]| ::
                 exists n :: 0 <= n < |r.value.popped| && r.value.popped[n].0 == Tag(g, i)
  {
    var pl := PlanOf(G, L, acts);
    PlanValid(G, L, acts);
    SoundFits(pl);
    WholeStepEnds(pl, Fresh(G, L), ops);
    forall g, i | 0 <= g < L && 0 <= i < |acts[g]| ensures Gone(pl, Back(0, {}), Tag(g, i)) {
    }
  }

  // ----- any number of steps

  datatype Step = Step(acts: seq<seq<Tensor>>, ops: seq<Op>)

  function ExecSteps(G: nat, L: nat, h: Handler, steps: seq<Step>): Option<(Handler, seq<seq<(Tag, Tensor)>>)>
    requires G > 0 && forall s | s in steps :: Shape(PlanOf(G, L, s.acts), Fore(0, 0), s.ops)
    decreases |steps|
  {
    if steps == [] then Some((h, []))
    else
      assert steps[0] in steps;
      var r := Exec(PlanOf(G, L, steps[0].acts), Start0(h), steps[0].ops);
      if r.None? then None
      else
        var rest := ExecSteps(G, L, r.value.h, steps[1..]);
        if rest.None? then None else Some((rest.value.0, [r.value.popped] + rest.value.1))
  }

  /** A whole step with sound keys. */
  ghost predicate SoundStep(G: nat, L: nat, s: Step) {
    G > 0 && ValidActs(G, L, s.acts) && KeysSound(G, L, s.acts) && WholeStep(PlanOf(G, L, s.acts), s.ops)
  }

  lemma FirstStep(G: nat, L: nat, s: Step) returns (r: Run)
    requires SoundStep(G, L, s)
    ensures Exec(PlanOf(G, L, s.acts), Start0(Fresh(G, L)), s.ops) == Some(r)
    ensures r.h == Fresh(G, L) && AllRestored(s.acts, r.popped)
  {
    StepRestores(G, L, s.acts, s.ops);
    r := Exec(PlanOf(G, L, s.acts), Start0(Fresh(G, L)), s.ops).value;
  }

  ghost predicate EachRestored(steps: seq<Step>, popped: seq<seq<(Tag, Tensor)>>) {
    |popped| == |steps| && forall k | 0 <= k < |steps| :: AllRestored(steps[k].acts, popped[k])
  }

  lemma OneMoreStep(steps: seq<Step>, first: seq<(Tag, Tensor)>, rest: seq<seq<(Tag, Tensor)>>)
    requires steps != [] && AllRestored(steps[0].acts, first) && EachRestored(steps[1..], rest)
    ensures EachRestored(steps, [first] + rest)
  {
    forall k | 0 <= k < |steps| ensures AllRestored(steps[k].acts, ([first] + rest)[k]) {
      if k > 0 {
        assert steps[1..][k - 1] == steps[k];
      }
    }
  }

  /** The same over any number of training steps with one handler. */
  lemma {:induction false} TrainingRestores(G: nat, L: nat, steps: seq<Step>)
    returns (popped: seq<seq<(Tag, Tensor)>>)
    requires G > 0 && forall s | s in steps :: Shape(PlanOf(G, L, s.acts), Fore(0, 0), s.ops)
    requires forall s | s in steps :: SoundStep(G, L, s)
    ensures ExecSteps(G, L, Fresh(G, L), steps) == Some((Fresh(G, L), popped)) && EachRestored(steps, popped)
    decreases |steps|
  {
    popped := [];
    if steps != [] {
      assert steps[0] in steps;
      var first := FirstStep(G, L, steps[0]);
      popped := TrainingRestores(G, L, steps[1..]);
      OneMoreStep(steps, first.popped, popped);
      popped := [first.popped] + popped;
    }
  }
}
