/** Training steps whose deduplication keys are not sound: exactly when a step restores every tensor, and a
    step that does not. */
module OffloadKeys {
  import opened OffloadSpec
  import opened OffloadInvariant
  import opened OffloadSteps
  import opened OffloadTheorems

  /** Group `bad` is still on the CPU. */
  ghost predicate StillBad(pl: Plan, r: Run, bad: nat) {
    r.at.Back? ==> exists m: nat :: bad < m && Bwd(pl, r.h, r.at.c, r.at.left, m)
  }

  lemma BadBetweenGroups(pl: Plan, r: Run, bad: nat) returns (m: nat)
    requires Valid(pl) && HandlerOk(pl, r.h, r.at) && Allowed(pl, r.at, CommitBack)
             && bad < pl.G && StillBad(pl, r, bad)
    ensures r.at.c <= pl.L && Bwd(pl, r.h, r.at.c, {}, m) && bad < m
  {
    if r.at.Fore? {
      TurnKeeps(pl, r.h);
      m := pl.G;
    } else {
      m :| bad < m && Bwd(pl, r.h, r.at.c, r.at.left, m);
    }
  }

  lemma MisfitWaits(pl: Plan, r: Run, m: nat, bad: nat)
    requires Valid(pl) && RunOk(pl, r) && Allowed(pl, r.at, CommitBack) && r.at.c <= pl.L
    requires bad < |pl.acts| && !ViewsFit(pl, bad) && Moved(pl, bad) && bad < m && Bwd(pl, r.h, r.at.c, {}, m)
    requires Reloads(pl, r.at.c, m) && Moved(pl, m - 1) ==> ViewsFit(pl, m - 1)
    ensures Perform(pl, r, CommitBack).Some? && RunOk(pl, Perform(pl, r, CommitBack).value)
    ensures StillBad(pl, Perform(pl, r, CommitBack).value, bad)
  {
    var m' := CommitBackRuns(pl, r, m);
    WaitsFor(pl, Perform(pl, r, CommitBack).value, m', bad);
  }

  lemma WaitsFor(pl: Plan, r: Run, m: nat, bad: nat)
    requires r.at.Back? && bad < m && Bwd(pl, r.h, r.at.c, r.at.left, m)
    ensures StillBad(pl, r, bad)
  {
  }

  lemma MisfitCommit(pl: Plan, r: Run, bad: nat)
    requires Valid(pl) && RunOk(pl, r) && Allowed(pl, r.at, CommitBack)
    requires bad < |pl.acts| && Moved(pl, bad) && !ViewsFit(pl, bad) && StillBad(pl, r, bad)
    ensures var p := Perform(pl, r, CommitBack);
            p.None? || (RunOk(pl, p.value) && StillBad(pl, p.value, bad))
  {
    var m := BadBetweenGroups(pl, r, bad);
    if Reloads(pl, r.at.c, m) && Moved(pl, m - 1) && !ViewsFit(pl, m - 1) {
      CommitBackwardFails(pl, r.h, r.at.c, m);
    } else {
      MisfitWaits(pl, r, m, bad);
    }
  }

  /** One operation before group `bad` is reloaded: it raises, or the run is in order and the group still waits. */
  lemma MisfitStep(pl: Plan, r: Run, op: Op, bad: nat)
    requires Valid(pl) && RunOk(pl, r) && Allowed(pl, r.at, op)
    requires bad < |pl.acts| && Moved(pl, bad) && !ViewsFit(pl, bad) && StillBad(pl, r, bad)
    ensures var p := Perform(pl, r, op);
            p.None? || (RunOk(pl, p.value) && StillBad(pl, p.value, bad))
  {
    match op
    case PushNext => PushRuns(pl, r);
    case CommitFore => CommitForeRuns(pl, r);
    case CommitBack => MisfitCommit(pl, r, bad);
    case PopAt(i) =>
      var m: nat :| bad < m && Bwd(pl, r.h, r.at.c, r.at.left, m);
      PopRuns(pl, r, i, m);
  }

  lemma NobodyBadAtEnd(pl: Plan, r: Run, bad: nat)
    requires Valid(pl) && r.at == Back(0, {})
    ensures !StillBad(pl, r, bad)
  {
    forall m: nat | Bwd(pl, r.h, 0, {}, m) ensures m == 0 {
    }
  }

  lemma {:induction false} MisfitRaises(pl: Plan, r: Run, ops: seq<Op>, bad: nat)
    requires Valid(pl) && RunOk(pl, r) && Shape(pl, r.at, ops) && EndOf(pl, r.at, ops) == Back(0, {})
    requires bad < |pl.acts| && Moved(pl, bad) && !ViewsFit(pl, bad) && StillBad(pl, r, bad)
    ensures Exec(pl, r, ops).None?
    decreases |ops|
  {
    if ops == [] {
      NobodyBadAtEnd(pl, r, bad);
    } else {
      MisfitStep(pl, r, ops[0], bad);
      var p := Perform(pl, r, ops[0]);
      if p.Some? {
        MisfitRaises(pl, p.value, ops[1..], bad);
      }
    }
  }

  ghost predicate Succeeds(G: nat, L: nat, acts: seq<seq<Tensor>>, ops: seq<Op>)
    requires G > 0 && Shape(PlanOf(G, L, acts), Fore(0, 0), ops)
  {
    var r := Exec(PlanOf(G, L, acts), Start0(Fresh(G, L)), ops);
    r.Some? && AllRestored(acts, r.value.popped)
  }

  /** Where every reload fits, a tensor that shares its key with different elements comes back wrong. */
  lemma UnsoundKeyMisleads(G: nat, L: nat, acts: seq<seq<Tensor>>, ops: seq<Op>, g: nat)
    requires ValidActs(G, L, acts) && WholeStep(PlanOf(G, L, acts), ops) && ReloadFits(PlanOf(G, L, acts))
    requires g < |acts| && Moved(PlanOf(G, L, acts), g) && !KeySound(acts[g])
    ensures !Succeeds(G, L, acts, ops)
  {
    var pl := PlanOf(G, L, acts);
    PlanValid(G, L, acts);
    WholeStepEnds(pl, Fresh(G, L), ops);
    var r := Exec(pl, Start0(Fresh(G, L)), ops).value;
    KeySoundIff(acts[g]);
    var i: nat :| i < |acts[g]| && FirstElems(acts[g], acts[g][i].key) != acts[g][i].elems;
    PoppedWrong(pl, r.popped, g, i);
  }

  /** At the end of a step every tensor has been popped, with the elements kept for its key. */
  lemma PoppedAs(pl: Plan, popped: seq<(Tag, Tensor)>, g: nat, i: nat) returns (n: nat)
    requires Valid(pl) && PoppedOk(pl, popped) && Covers(pl, Back(0, {}), popped)
    requires g < |pl.acts| && i < |pl.acts[g]| && Moved(pl, g)
    ensures n < |popped| && popped[n].0 == Tag(g, i)
    ensures popped[n].1.elems == FirstElems(pl.acts[g], pl.acts[g][i].key)
  {
    assert Gone(pl, Back(0, {}), Tag(g, i));
    n :| n < |popped| && popped[n].0 == Tag(g, i);
  }

  lemma PoppedWrong(pl: Plan, popped: seq<(Tag, Tensor)>, g: nat, i: nat)
    requires Valid(pl) && PoppedOk(pl, popped) && Covers(pl, Back(0, {}), popped)
    requires g < |pl.acts| && i < |pl.acts[g]| && Moved(pl, g)
    requires FirstElems(pl.acts[g], pl.acts[g][i].key) != pl.acts[g][i].elems
    ensures !AllRestored(pl.acts, popped)
  {
    var n := PoppedAs(pl, popped, g, i);
    assert !SameValue(popped[n].1, pl.acts[g][i]);
  }

  /** Exactly when: a whole step returns every tensor as pushed if and only if, in every group that is
      moved to the CPU, tensors with one address and dtype have the same elements in the same order. */
  lemma RestoresIffKeysSound(G: nat, L: nat, acts: seq<seq<Tensor>>, ops: seq<Op>)
    requires ValidActs(G, L, acts) && WholeStep(PlanOf(G, L, acts), ops)
    ensures Succeeds(G, L, acts, ops) <==> KeysSound(G, L, acts)
  {
    var pl := PlanOf(G, L, acts);
    PlanValid(G, L, acts);
    if KeysSound(G, L, acts) {
      StepRestores(G, L, acts, ops);
    } else if ReloadFits(pl) {
      var g: nat :| g < |acts| && Moved(pl, g) && !KeySound(acts[g]);
      UnsoundKeyMisleads(G, L, acts, ops, g);
    } else {
      var bad: nat :| bad < |pl.acts| && Moved(pl, bad) && !ViewsFit(pl, bad);
      StartOk(pl, Fresh(G, L));
      MisfitRaises(pl, Start0(Fresh(G, L)), ops, bad);
    }
  }

  /** A matrix and its transpose share address and dtype: with both saved in a moved group, keys are not sound. */
  lemma TransposeUnsound()
    ensures var x, xt := Tensor(7, [1, 2, 3, 4], [2, 2]), Tensor(7, [1, 3, 2, 4], [2, 2]);
            WellFormed(x) && WellFormed(xt) && !KeySound([x, xt])
  {
    var x, xt := Tensor(7, [1, 2, 3, 4], [2, 2]), Tensor(7, [1, 3, 2, 4], [2, 2]);
    assert [2, 2][..1] == [2];
    assert [2][..0] == [];
    assert Volume([2]) == 2 && Volume([2, 2]) == 4;
    assert [x, xt][0].elems != [x, xt][1].elems;
  }

  // ----- a step that goes wrong

  lemma {:induction false} ShapeConcat(pl: Plan, at: Cursor, p: seq<Op>, q: seq<Op>)
    requires Shape(pl, at, p) && Shape(pl, EndOf(pl, at, p), q)
    ensures Shape(pl, at, p + q) && EndOf(pl, at, p + q) == EndOf(pl, EndOf(pl, at, p), q)
    decreases |p|
  {
    if p == [] {
      assert p + q == q;
    } else {
      ShapeConcat(pl, Next(pl, at, p[0]), p[1..], q);
      assert (p + q)[1..] == p[1..] + q;
    }
  }

  lemma {:induction false} ForwardExists(pl: Plan, c: nat, k: nat) returns (ops: seq<Op>)
    requires c <= |pl.acts| && k <= (if c < |pl.acts| then |pl.acts[c]| else 0)
    ensures Shape(pl, Fore(c, k), ops) && EndOf(pl, Fore(c, k), ops) == Fore(|pl.acts|, 0)
    decreases |pl.acts| - c, (if c < |pl.acts| then |pl.acts[c]| else 0) - k
  {
    if c == |pl.acts| {
      ops := [];
    } else if k < |pl.acts[c]| {
      ops := ForwardExists(pl, c, k + 1);
      ops := [PushNext] + ops;
    } else {
      ops := ForwardExists(pl, c + 1, 0);
      ops := [CommitFore] + ops;
    }
  }

  lemma {:induction false} PopsExist(pl: Plan, c: nat, left: set<nat>) returns (ops: seq<Op>)
    ensures Shape(pl, Back(c, left), ops) && EndOf(pl, Back(c, left), ops) == Back(c, {})
    decreases |left|
  {
    if left == {} {
      ops := [];
    } else {
      var i :| i in left;
      ops := PopsExist(pl, c, left - {i});
      ops := [PopAt(i)] + ops;
    }
  }

  lemma {:induction false} BackwardExists(pl: Plan, at: Cursor) returns (ops: seq<Op>)
    requires at.c <= |pl.acts| && ((at == Fore(|pl.acts|, 0) && |pl.acts| > 0) || at == Back(at.c, {}))
    ensures Shape(pl, at, ops) && EndOf(pl, at, ops) == Back(0, {})
    decreases at.c
  {
    if at == Back(0, {}) {
      ops := [];
    } else {
      var next := Next(pl, at, CommitBack);
      var pops := PopsExist(pl, next.c, next.left);
      var rest := BackwardExists(pl, Back(next.c, {}));
      ShapeConcat(pl, next, pops, rest);
      ops := [CommitBack] + (pops + rest);
    }
  }

  /** Whatever the tensors, there is a training step that pushes and pops them all. */
  lemma WholeStepExists(pl: Plan) returns (ops: seq<Op>)
    requires |pl.acts| > 0
    ensures WholeStep(pl, ops)
  {
    var fore := ForwardExists(pl, 0, 0);
    var back := BackwardExists(pl, Fore(|pl.acts|, 0));
    ShapeConcat(pl, Fore(0, 0), fore, back);
    ops := fore + back;
  }

  function Matrix(): Tensor {
    Tensor(7, [1, 2, 3, 4], [2, 2])
  }

  function Transpose(): Tensor {
    Tensor(7, [1, 3, 2, 4], [2, 2])
  }

  lemma PairValid()
    ensures ValidActs(1, 1, [[Matrix(), Transpose()]])
    ensures FirstElems([Matrix(), Transpose()], 7) == [1, 2, 3, 4]
    ensures ReloadFits(PlanOf(1, 1, [[Matrix(), Transpose()]]))
  {
    TransposeUnsound();
  }

  /** A step with one layer in which a matrix and its transpose are saved runs to its end, and the pop of the
      transpose returns the elements of the matrix. */
  lemma TransposeMisrestored() returns (ops: seq<Op>)
    ensures WholeStep(PlanOf(1, 1, [[Matrix(), Transpose()]]), ops)
    ensures var r := Exec(PlanOf(1, 1, [[Matrix(), Transpose()]]), Start0(Fresh(1, 1)), ops);
            && r.Some?
            && exists n :: 0 <= n < |r.value.popped| && r.value.popped[n].0 == Tag(0, 1)
                           && r.value.popped[n].1.elems == Matrix().elems != Transpose().elems
  {
    var pl := PlanOf(1, 1, [[Matrix(), Transpose()]]);
    ops := WholeStepExists(pl);
    PairValid();
    PlanValid(1, 1, pl.acts);
    WholeStepEnds(pl, Fresh(1, 1), ops);
    var n := PoppedAs(pl, Exec(pl, Start0(Fresh(1, 1)), ops).value.popped, 0, 1);
  }
}
