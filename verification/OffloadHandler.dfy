/** The two handlers as objects: the asynchronous one, proved against the functions on its bookkeeping,
    and the synchronized one it has to agree with. */
module OffloadHandler {
  import opened Wrappers
  import opened OffloadSpec

  /** Entry p keeps this under the tag. */
  predicate Holds(state: seq<Entry>, p: int, tag: Tag, saved: Saved) {
    0 <= p < |state| && state[p] == Entry(tag, saved)
  }

  class AsyncDoubleBufferGroupOffloadHandler {
    var groups: int
    var layers: int
    var window: map<int, int>
    var current: int
    var count: nat
    var state: seq<Entry>
    var buf: map<Tag, Option<Tensor>>
    var offloaded: int
    var mapping: map<int, CpuCopies>

    function View(): Handler
      reads this
    {
      Handler(groups, layers, window, current, count, state, buf, offloaded, mapping)
    }

    /** The loop over the offload groups carries the last remainder share it gave out in `constant`. */
    constructor (numOffloadGroup: nat, numModelGroup: int)
      ensures View() == Fresh(numOffloadGroup, numModelGroup)
    {
      groups, layers := numOffloadGroup, numModelGroup;
      current, count, state, buf, offloaded, mapping := 0, 0, [], map[], 0, map[];
      window := map[];
      new;
      var constant := 0;
      for i := 0 to numOffloadGroup
        invariant View() == Fresh(numOffloadGroup, numModelGroup).(window := window)
        invariant window == map j | 0 <= j < i :: Window(layers, groups, j)
        invariant numOffloadGroup > 0 ==> constant == Min(i, layers % groups)
      {
        var w := layers / groups * (i + 1) - 1;
        if i < layers % groups {
          w := w + (i + 1);
          constant := i + 1;
        } else {
          w := w + constant;
        }
        assert w == Window(layers, groups, i);
        window := window[i := w];
      }
    }

    method TensorPush(t: Tensor, need: bool) returns (ok: bool, handle: Handle)
      modifies this
      ensures ok <==> Push(old(View()), t, need).Some?
      ensures ok ==> (View(), handle) == Push(old(View()), t, need).value
      ensures !need ==> ok && handle == Stray(t) && View() == old(View())
      ensures need && ok ==> var tag := Tag(old(current), old(count));
                             && handle == Tagged(tag) && count == old(count) + 1 && current == old(current)
                             && state == old(state) + [Entry(tag, OnDevice(t))]
      ensures !ok ==> exists p :: 0 <= p < |old(state)| && old(state)[p].tag == Tag(old(current), old(count))
    {
      ok, handle := true, Stray(t);
      if need {
        var tag := Tag(current, count);
        count := count + 1;
        if Find(state, tag) >= 0 {
          return false, handle;
        }
        state := state + [Entry(tag, OnDevice(t))];
        if current < groups {
          buf := buf[tag := Some(t)];
        }
        handle := Tagged(tag);
      }
    }

    method TensorPop(handle: Handle) returns (ok: bool, t: Tensor)
      modifies this
      ensures ok <==> Pop(old(View()), handle).Some?
      ensures ok ==> (View(), t) == Pop(old(View()), handle).value
      ensures handle.Stray? ==> ok && t == handle.t && View() == old(View())
      ensures handle.Tagged? && ok ==>
                && buf == old(buf) - {handle.tag}
                && exists p :: Holds(old(state), p, handle.tag, OnDevice(t))
                               && state == old(state)[..p] + old(state)[p + 1..]
      ensures !ok ==> || (forall p | 0 <= p < |old(state)| :: old(state)[p].tag != handle.tag)
                      || exists p, key, shape :: Holds(old(state), p, handle.tag, Offloaded(key, shape))
    {
      t := Tensor(0, [], []);
      if handle.Stray? {
        return true, handle.t;
      }
      var p := Find(state, handle.tag);
      if p < 0 {
        return false, t;
      }
      var saved := state[p].saved;
      assert Holds(old(state), p, handle.tag, saved);
      state := state[..p] + state[p + 1..];
      buf := buf - {handle.tag};
      if saved.Offloaded? {
        return false, t;
      }
      return true, saved.t;
    }

    method BulkOffloadGroup(g: int) returns (ok: bool)
      modifies this`state, this`mapping
      ensures ok <==> BulkOffload(old(View()), g).Some?
      ensures ok ==> View() == BulkOffload(old(View()), g).value
    {
      var copies: CpuCopies := map[];
      ghost var was := state;
      for i := 0 to |state|
        invariant |state| == |was| && mapping == old(mapping)
        invariant forall p | 0 <= p < i :: state[p] == Parked(was[p], g)
        invariant forall p | i <= p < |was| :: state[p] == was[p]
        invariant copies == Gather(was[..i], g)
        invariant forall p | 0 <= p < i && was[p].tag.group == g :: was[p].saved.OnDevice?
      {
        var e := state[i];
        assert was[..i + 1][..i] == was[..i];
        if e.tag.group == g {
          if e.saved.Offloaded? {
            assert was[i] in was;
            return false;
          }
          if e.saved.t.key !in copies {
            copies := copies[e.saved.t.key := e.saved.t.elems];
          }
          state := state[i := Entry(e.tag, Offloaded(e.saved.t.key, e.saved.t.shape))];
        }
      }
      assert was[..|was|] == was;
      assert state == ParkAll(was, g);
      mapping := mapping[g := copies];
      ok := true;
    }

    method SynchronizeOnGroupCommitForward() returns (ok: bool)
      modifies this`state, this`mapping, this`buf, this`offloaded
      ensures ok <==> Synchronize(old(View())).Some?
      ensures ok ==> View() == Synchronize(old(View())).value
    {
      if current == 0 {
        ok := BulkOffloadGroup(0);
        if !ok {
          return;
        }
      }
      ghost var started := View();
      assert Start(old(View())) == Some(started);
      if offloaded !in window {
        return false;
      }
      if window[offloaded] == current {
        buf := Dropped(buf, offloaded);
        if offloaded < groups - 1 {
          ok := BulkOffloadGroup(offloaded + 1);
          if !ok {
            return;
          }
        }
        offloaded := offloaded + 1;
        assert Advance(started) == Some(View());
      }
      ok := true;
    }

    method OnGroupCommitForward() returns (ok: bool)
      modifies this
      ensures ok <==> CommitForward(old(View())).Some?
      ensures ok ==> View() == CommitForward(old(View())).value
    {
      ok := SynchronizeOnGroupCommitForward();
      if ok {
        current := current + 1;
        count := 0;
      }
    }

    method BulkReloadGroup(g: int) returns (ok: bool)
      modifies this`state, this`mapping
      ensures ok <==> BulkReload(old(View()), g).Some?
      ensures ok ==> View() == BulkReload(old(View()), g).value
    {
      if g >= groups || g !in mapping {
        return false;
      }
      var copies := mapping[g];
      mapping := mapping - {g};
      ghost var was := state;
      for i := 0 to |state|
        invariant |state| == |was| && mapping == old(mapping) - {g}
        invariant forall p | 0 <= p < i :: Restorable(was[p], g, copies) && state[p] == Restored(was[p], g, copies)
        invariant forall p | i <= p < |was| :: state[p] == was[p]
      {
        var e := state[i];
        if e.tag.group == g && e.saved.Offloaded? {
          if e.saved.key !in copies || Volume(e.saved.shape) != |copies[e.saved.key]| {
            assert was[i] in was && !Restorable(was[i], g, copies);
            return false;
          }
          state := state[i := Entry(e.tag, OnDevice(Tensor(e.saved.key, copies[e.saved.key], e.saved.shape)))];
        }
      }
      forall e | e in was ensures Restorable(e, g, copies) {
        var p :| 0 <= p < |was| && was[p] == e;
      }
      assert state == RestoreAll(was, g, copies);
      ok := true;
    }

    method OnGroupCommitBackward() returns (ok: bool)
      modifies this
      ensures ok <==> CommitBackward(old(View())).Some?
      ensures ok ==> View() == CommitBackward(old(View())).value
    {
      current := current - 1;
      if current < 0 || offloaded - 1 !in window {
        return false;
      }
      if window[offloaded - 1] == current {
        ok := BulkReloadGroup(offloaded - 1);
        if !ok {
          return;
        }
        offloaded := offloaded - if offloaded > 1 then 1 else 0;
      }
      if current == 0 {
        offloaded := 0;
      }
      ok := true;
    }
  }
}
