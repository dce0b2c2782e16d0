/** Training steps that also save tensors which are not chosen for offloading: parameters, and whatever else
    the checker of the handler rejects. */
module OffloadStrays {
  import opened Wrappers
  import opened OffloadSpec
  import opened OffloadInvariant
  import opened OffloadTheorems
  import opened OffloadKeys

  /** An operation on a tensor that is chosen, or the push of one that is not, or the pop of the n-th such. */
  datatype MixedOp = Chosen(op: Op) | PushStray(t: Tensor) | PopStray(n: nat)

  /** `strays` are the handles of the tensors not chosen, `back` is what their pops returned. */
  datatype MixedRun = MixedRun(run: Run, strays: seq<Handle>, back: seq<(nat, Tensor)>)

  /** The operations on chosen tensors have the shape of a training step; the others come at any time, and
      what is popped was pushed before. */
  predicate MixedShape(pl: Plan, at: Cursor, pushed: nat, ops: seq<MixedOp>)
    decreases |ops|
  {
    ops == [] ||
    match ops[0]
    case Chosen(op) => Allowed(pl, at, op) && MixedShape(pl, Next(pl, at, op), pushed, ops[1..])
    case PushStray(_) => MixedShape(pl, at, pushed + 1, ops[1..])
    case PopStray(n) => n < pushed && MixedShape(pl, at, pushed, ops[1..])
  }

  function MixedPerform(pl: Plan, m: MixedRun, op: MixedOp): (r: Option<MixedRun>)
    requires MixedShape(pl, m.run.at, |m.strays|, [op])
  {
    match op
    case Chosen(op) =>
      var p := Perform(pl, m.run, op);
      if p.None? then None else Some(m.(run := p.value))
    case PushStray(t) =>
      var p := Push(m.run.h, t, false);
      if p.None? then None else Some(m.(run := m.run.(h := p.value.0), strays := m.strays + [p.value.1]))
    case PopStray(n) =>
      var p := Pop(m.run.h, m.strays[n]);
      if p.None? then None else Some(m.(run := m.run.(h := p.value.0), back := m.back + [(n, p.value.1)]))
  }

  lemma PerformsAt(pl: Plan, r: Run, op: Op)
    requires Allowed(pl, r.at, op)
    ensures Perform(pl, r, op).Some? ==> Perform(pl, r, op).value.at == Next(pl, r.at, op)
  {
  }

  lemma ShapeOfFirst(pl: Plan, m: MixedRun, ops: seq<MixedOp>)
    requires ops != [] && MixedShape(pl, m.run.at, |m.strays|, ops)
    ensures MixedShape(pl, m.run.at, |m.strays|, [ops[0]])
    ensures var p := MixedPerform(pl, m, ops[0]);
            p.Some? ==> MixedShape(pl, p.value.run.at, |p.value.strays|, ops[1..])
  {
    assert [ops[0]][1..] == [];
    if ops[0].Chosen? {
      PerformsAt(pl, m.run, ops[0].op);
    }
  }

  function MixedExec(pl: Plan, m: MixedRun, ops: seq<MixedOp>): Option<MixedRun>
    requires MixedShape(pl, m.run.at, |m.strays|, ops)
    decreases |ops|
  {
    if ops == [] then Some(m)
    else
      ShapeOfFirst(pl, m, ops);
      var p := MixedPerform(pl, m, ops[0]);
      if p.None? then None else MixedExec(pl, p.value, ops[1..])
  }

  /** The operations on chosen tensors alone. */
  function ChosenOps(ops: seq<MixedOp>): seq<Op> {
    if ops == [] then []
    else if ops[0].Chosen? then [ops[0].op] + ChosenOps(ops[1..])
    else ChosenOps(ops[1..])
  }

  lemma FirstChosen(ops: seq<MixedOp>)
    requires ops != [] && ops[0].Chosen?
    ensures ChosenOps(ops) != [] && ChosenOps(ops)[0] == ops[0].op && ChosenOps(ops)[1..] == ChosenOps(ops[1..])
  {
  }

  /** The tensors that are pushed without being chosen, in order. */
  function StrayTensors(ops: seq<MixedOp>): seq<Tensor> {
    if ops == [] then []
    else StraysOf(ops[0]) + StrayTensors(ops[1..])
  }

  function StraysOf(op: MixedOp): seq<Tensor> {
    if op.PushStray? then [op.t] else []
  }

  lemma {:induction false} ChosenShape(pl: Plan, at: Cursor, pushed: nat, ops: seq<MixedOp>)
    requires MixedShape(pl, at, pushed, ops)
    ensures Shape(pl, at, ChosenOps(ops))
    decreases |ops|
  {
    if ops != [] {
      match ops[0] {
        case Chosen(op) =>
          ChosenShape(pl, Next(pl, at, op), pushed, ops[1..]);
          FirstChosen(ops);
        case PushStray(_) => ChosenShape(pl, at, pushed + 1, ops[1..]);
        case PopStray(_) => ChosenShape(pl, at, pushed, ops[1..]);
      }
    }
  }

  /** The handles are those of these tensors, and every pop so far has returned the tensor pushed. */
  predicate StraysOk(m: MixedRun, ts: seq<Tensor>) {
    && |m.strays| == |ts|
    && (forall i | 0 <= i < |ts| :: m.strays[i] == Stray(ts[i]))
    && forall i | 0 <= i < |m.back| :: m.back[i].0 < |ts| && m.back[i].1 == ts[m.back[i].0]
  }

  /** Whatever happens in between, a tensor that is not chosen is returned as it was pushed, and neither its push
      nor its pop fails or touches the bookkeeping. */
  lemma StrayComesBack(h: Handler, later: Handler, t: Tensor)
    ensures exists hd :: Push(h, t, false) == Some((h, hd)) && Pop(later, hd) == Some((later, t))
  {
    assert Push(h, t, false) == Some((h, Stray(t))) && Pop(later, Stray(t)) == Some((later, t));
  }

  lemma StrayStep(pl: Plan, m: MixedRun, op: MixedOp, ts: seq<Tensor>)
    requires MixedShape(pl, m.run.at, |m.strays|, [op]) && !op.Chosen? && StraysOk(m, ts)
    ensures var p := MixedPerform(pl, m, op);
            p.Some? && p.value.run == m.run && StraysOk(p.value, ts + StraysOf(op))
  {
    assert m.run.(h := m.run.h) == m.run;
    if op.PopStray? {
      assert ts + [] == ts;
    }
  }

  /** From m on, these operations fare like those on chosen tensors alone. */
  ghost predicate PassesThrough(pl: Plan, m: MixedRun, ops: seq<MixedOp>, ts: seq<Tensor>)
    requires MixedShape(pl, m.run.at, |m.strays|, ops) && Shape(pl, m.run.at, ChosenOps(ops))
  {
    var r, plain := MixedExec(pl, m, ops), Exec(pl, m.run, ChosenOps(ops));
    && (r.Some? <==> plain.Some?)
    && (r.Some? ==> r.value.run == plain.value && StraysOk(r.value, ts + StrayTensors(ops)))
  }

  lemma ChosenFirst(pl: Plan, m: MixedRun, ops: seq<MixedOp>, ts: seq<Tensor>)
    requires ops != [] && ops[0].Chosen?
    requires MixedShape(pl, m.run.at, |m.strays|, ops) && Shape(pl, m.run.at, ChosenOps(ops))
    requires var p := MixedPerform(pl, m, ops[0]);
             p.Some? ==> && MixedShape(pl, p.value.run.at, |p.value.strays|, ops[1..])
                         && Shape(pl, p.value.run.at, ChosenOps(ops[1..]))
                         && PassesThrough(pl, p.value, ops[1..], ts)
    ensures PassesThrough(pl, m, ops, ts)
  {
    FirstChosen(ops);
    assert StrayTensors(ops) == StrayTensors(ops[1..]);
  }

  lemma ExecTail(pl: Plan, m: MixedRun, ops: seq<MixedOp>, m': MixedRun)
    requires ops != [] && MixedShape(pl, m.run.at, |m.strays|, ops)
    requires MixedShape(pl, m.run.at, |m.strays|, [ops[0]]) && MixedPerform(pl, m, ops[0]) == Some(m')
    requires MixedShape(pl, m'.run.at, |m'.strays|, ops[1..])
    ensures MixedExec(pl, m, ops) == MixedExec(pl, m', ops[1..])
  {
  }

  lemma StrayHead(ops: seq<MixedOp>, ts: seq<Tensor>)
    requires ops != [] && !ops[0].Chosen?
    ensures ChosenOps(ops) == ChosenOps(ops[1..])
    ensures ts + StrayTensors(ops) == ts + StraysOf(ops[0]) + StrayTensors(ops[1..])
  {
  }

  lemma StrayFirst(pl: Plan, m: MixedRun, ops: seq<MixedOp>, ts: seq<Tensor>, m': MixedRun)
    requires ops != [] && !ops[0].Chosen?
    requires MixedShape(pl, m.run.at, |m.strays|, ops) && Shape(pl, m.run.at, ChosenOps(ops))
    requires MixedPerform(pl, m, ops[0]) == Some(m') && m'.run == m.run
    requires MixedShape(pl, m'.run.at, |m'.strays|, ops[1..])
    requires PassesThrough(pl, m', ops[1..], ts + StraysOf(ops[0]))
    ensures PassesThrough(pl, m, ops, ts)
  {
    StrayHead(ops, ts);
    ExecTail(pl, m, ops, m');
  }

  /** Tensors that are not chosen change nothing for the others: the run fails exactly when the run without them
      fails, and otherwise ends in the same place with the same bookkeeping; they all come back as pushed. */
  lemma {:induction false} StraysPassThrough(pl: Plan, m: MixedRun, ops: seq<MixedOp>, ts: seq<Tensor>)
    requires MixedShape(pl, m.run.at, |m.strays|, ops) && StraysOk(m, ts)
    ensures Shape(pl, m.run.at, ChosenOps(ops)) && PassesThrough(pl, m, ops, ts)
    decreases |ops|
  {
    ChosenShape(pl, m.run.at, |m.strays|, ops);
    if ops == [] {
      assert ts + [] == ts;
    } else {
      ShapeOfFirst(pl, m, ops);
      var p := MixedPerform(pl, m, ops[0]);
      if ops[0].Chosen? {
        if p.Some? {
          StraysPassThrough(pl, p.value, ops[1..], ts);
        }
        ChosenFirst(pl, m, ops, ts);
      } else {
        StrayStep(pl, m, ops[0], ts);
        StraysPassThrough(pl, p.value, ops[1..], ts + StraysOf(ops[0]));
        StrayFirst(pl, m, ops, ts, p.value);
      }
    }
  }

  function MixedStart(h: Handler): MixedRun {
    MixedRun(Start0(h), [], [])
  }

  /** Every pop returned the tensor pushed, be it chosen or not. */
  ghost predicate AllBack(acts: seq<seq<Tensor>>, strays: seq<Tensor>, m: MixedRun) {
    && AllRestored(acts, m.run.popped)
    && forall i | 0 <= i < |m.back| :: m.back[i].0 < |strays| && m.back[i].1 == strays[m.back[i].0]
  }

  /** With sound keys, at every point of every training step with tensors of both kinds: no assert or lookup has
      failed, and every pop so far has returned the tensor pushed. */
  lemma MixedRunRestores(G: nat, L: nat, acts: seq<seq<Tensor>>, ops: seq<MixedOp>)
    requires ValidActs(G, L, acts) && KeysSound(G, L, acts) && MixedShape(PlanOf(G, L, acts), Fore(0, 0), 0, ops)
    ensures var r := MixedExec(PlanOf(G, L, acts), MixedStart(Fresh(G, L)), ops);
            r.Some? && AllBack(acts, StrayTensors(ops), r.value)
  {
    var pl, m := PlanOf(G, L, acts), MixedStart(Fresh(G, L));
    StraysPassThrough(pl, m, ops, []);
    RunRestores(G, L, acts, ChosenOps(ops));
    assert [] + StrayTensors(ops) == StrayTensors(ops);
  }

  /** A whole step with tensors of both kinds succeeds with every tensor as pushed, and leaves the handler as new,
      if and only if the keys are sound in every group moved to the CPU. */
  lemma MixedRestoresIffKeysSound(G: nat, L: nat, acts: seq<seq<Tensor>>, ops: seq<MixedOp>)
    requires ValidActs(G, L, acts) && MixedShape(PlanOf(G, L, acts), Fore(0, 0), 0, ops)
    requires WholeStep(PlanOf(G, L, acts), ChosenOps(ops))
    ensures var r := MixedExec(PlanOf(G, L, acts), MixedStart(Fresh(G, L)), ops);
            && (r.Some? && AllBack(acts, StrayTensors(ops), r.value) <==> KeysSound(G, L, acts))
            && (KeysSound(G, L, acts) ==> r.value.run.h == Fresh(G, L))
  {
    var pl, m := PlanOf(G, L, acts), MixedStart(Fresh(G, L));
    StraysPassThrough(pl, m, ops, []);
    RestoresIffKeysSound(G, L, acts, ChosenOps(ops));
    assert [] + StrayTensors(ops) == StrayTensors(ops);
    if KeysSound(G, L, acts) {
      StepRestores(G, L, acts, ChosenOps(ops));
    }
  }
}
