/** Every operation of the handler keeps its invariant. */
module OffloadSteps {
  import opened Wrappers
  import opened OffloadSpec
  import opened OffloadInvariant

  lemma InTags(state: seq<Entry>, tag: Tag)
    requires tag in Tags(state)
    ensures exists p :: 0 <= p < |state| && state[p].tag == tag
  {
  }

  lemma TagsAt(state: seq<Entry>, p: nat)
    requires p < |state|
    ensures state[p].tag in Tags(state)
  {
  }

  // ----- push

  lemma StatePush(pl: Plan, state: seq<Entry>, c: nat, k: nat, parked: int)
    requires c < |pl.acts| && k < |pl.acts[c]|
    requires StateOk(pl, state, c, Upto(k), parked, false)
    requires !(Moved(pl, c) && c < parked)
    ensures Find(state, Tag(c, k)) < 0
    ensures StateOk(pl, state + [Entry(Tag(c, k), OnDevice(pl.acts[c][k]))], c, Upto(k + 1), parked, false)
  {
    var e := Entry(Tag(c, k), OnDevice(pl.acts[c][k]));
    var state' := state + [e];
    forall p, q | 0 <= p < q < |state'| ensures InOrder(state', p, q) {
      if q < |state| {
        assert InOrder(state, p, q);
      }
    }
    var part' := Upto(k + 1);
    forall tag ensures Kept(pl, state', c, part', tag) {
      assert Kept(pl, state, c, Upto(k), tag);
      if tag == e.tag {
        TagsAt(state', |state|);
      } else if Present(pl, c, part', tag) {
        assert tag in Tags(state);
        var p :| 0 <= p < |state| && state[p].tag == tag;
        TagsAt(state', p);
      }
    }
  }

  lemma BufPush(pl: Plan, buf: map<Tag, Option<Tensor>>, c: nat, k: nat, dropped: int)
    requires c < |pl.acts| && k < |pl.acts[c]| && (c < pl.G ==> dropped <= c)
    requires BufOk(pl, buf, c, Upto(k), dropped)
    ensures BufOk(pl, if c < pl.G then buf[Tag(c, k) := Some(pl.acts[c][k])] else buf, c, Upto(k + 1), dropped)
  {
    var buf' := if c < pl.G then buf[Tag(c, k) := Some(pl.acts[c][k])] else buf;
    var part' := Upto(k + 1);
    forall tag ensures SlotOk(pl, buf', c, part', dropped, tag) {
      assert SlotOk(pl, buf, c, Upto(k), dropped, tag);
      if tag != Tag(c, k) {
        assert tag in buf' <==> tag in buf;
      }
    }
  }

  /** No window of a group already dropped lies ahead. */
  lemma PassedLow(pl: Plan, off: int, c: nat)
    requires Valid(pl) && Passed(pl, off, c) && c <= pl.L
    ensures off <= c
    ensures pl.G < pl.L && off > 0 ==> off < c
  {
    if off > 0 {
    }
  }

  lemma PushKeeps(pl: Plan, h: Handler, c: nat, k: nat)
    requires Valid(pl) && Fwd(pl, h, c, k) && c < pl.L && k < |pl.acts[c]|
    ensures var r := Push(h, pl.acts[c][k], true);
            r.Some? && r.value.1 == Tagged(Tag(c, k)) && Fwd(pl, r.value.0, c, k + 1)
  {
    var parked := if c == 0 then 0 else Min(h.offloaded + 1, pl.G);
    PassedLow(pl, h.offloaded, c);
    assert !(Moved(pl, c) && c < parked);
    StatePush(pl, h.state, c, k, parked);
    BufPush(pl, h.buf, c, k, h.offloaded);
  }

  // ----- offload

  predicate SameCounters(h: Handler, k: Handler) {
    h.offloaded == k.offloaded && h.count == k.count && h.current == k.current
  }

  lemma {:induction false} FirstIs(ts: seq<Tensor>, j: nat)
    requires j < |ts| && forall i | 0 <= i < j :: ts[i].key != ts[j].key
    ensures FirstElems(ts, ts[j].key) == ts[j].elems
  {
    if j > 0 {
      FirstIs(ts[1..], j - 1);
    }
  }

  /** All entries of group g are device tensors of `ts`, in the order of their indices. */
  predicate Queued(state: seq<Entry>, g: int, ts: seq<Tensor>) {
    && (forall p | 0 <= p < |state| && state[p].tag.group == g ::
          state[p].tag.index < |ts| && state[p].saved == OnDevice(ts[state[p].tag.index]))
    && (forall p, q | 0 <= p < q < |state| && state[p].tag.group == state[q].tag.group == g ::
          state[p].tag.index < state[q].tag.index)
  }

  /** Entry p is of group g and its tensor has this key. */
  predicate KeyAt(state: seq<Entry>, g: int, ts: seq<Tensor>, key: int, p: nat)
    requires p < |state| && Queued(state, g, ts)
  {
    state[p].tag.group == g && ts[state[p].tag.index].key == key
  }

  /** The copy gathered for a key is that of its first entry p. */
  lemma {:induction false} GatherEarliest(state: seq<Entry>, g: int, ts: seq<Tensor>, key: int) returns (p: nat)
    requires Queued(state, g, ts)
    ensures key !in Gather(state, g) ==> forall q: nat | q < |state| :: !KeyAt(state, g, ts, key, q)
    ensures key in Gather(state, g) ==>
              && p < |state| && KeyAt(state, g, ts, key, p)
              && Gather(state, g)[key] == ts[state[p].tag.index].elems
              && forall q: nat | q < p :: !KeyAt(state, g, ts, key, q)
  {
    p := 0;
    if state != [] {
      var n := |state| - 1;
      var init := state[..n];
      assert forall q | 0 <= q < n :: init[q] == state[q];
      p := GatherEarliest(init, g, ts, key);
      assert forall q: nat | q < n :: KeyAt(state, g, ts, key, q) == KeyAt(init, g, ts, key, q);
      if key !in Gather(init, g) {
        p := n;
      }
    }
  }

  lemma CopyGathered(state: seq<Entry>, g: int, ts: seq<Tensor>, i: nat)
    requires Queued(state, g, ts) && i < |ts| && forall j | 0 <= j < |ts| :: Tag(g, j) in Tags(state)
    ensures ts[i].key in Gather(state, g) && Gather(state, g)[ts[i].key] == FirstElems(ts, ts[i].key)
  {
    var key := ts[i].key;
    InTags(state, Tag(g, i));
    var at: nat :| at < |state| && state[at].tag == Tag(g, i);
    assert KeyAt(state, g, ts, key, at);
    var p := GatherEarliest(state, g, ts, key);
    var first := state[p].tag.index;
    forall j | 0 <= j < first ensures ts[j].key != key {
      InTags(state, Tag(g, j));
      var q: nat :| q < |state| && state[q].tag == Tag(g, j);
      assert q < p && !KeyAt(state, g, ts, key, q);
    }
    FirstIs(ts, first);
  }

  lemma GatherCopies(state: seq<Entry>, g: int, ts: seq<Tensor>)
    requires Queued(state, g, ts)
    requires forall i | 0 <= i < |ts| :: Tag(g, i) in Tags(state)
    ensures Copies(ts, Gather(state, g))
  {
    forall i | 0 <= i < |ts|
      ensures ts[i].key in Gather(state, g) && Gather(state, g)[ts[i].key] == FirstElems(ts, ts[i].key) {
      CopyGathered(state, g, ts, i);
    }
  }

  ghost predicate Complete(pl: Plan, c: nat, part: set<nat>, g: nat)
    requires g < |pl.acts|
  {
    forall i: nat | i < |pl.acts[g]| :: Present(pl, c, part, Tag(g, i))
  }

  lemma EntriesPark(pl: Plan, state: seq<Entry>, c: nat, part: set<nat>, g: nat)
    requires g < |pl.acts| && EntriesOk(pl, state, c, part, g, false) && (Moved(pl, g) || g > c)
    ensures !AnyOffloaded(state, g)
    ensures EntriesOk(pl, ParkAll(state, g), c, part, g + 1, false)
  {
    var state' := ParkAll(state, g);
    forall e | e in state && e.tag.group == g ensures e.saved.OnDevice? {
      var p :| 0 <= p < |state| && state[p] == e;
    }
    forall p | 0 <= p < |state'| ensures Present(pl, c, part, state'[p].tag) && SavedOk(pl, g + 1, false, state'[p]) {
      assert state'[p] == Parked(state[p], g);
    }
  }

  lemma CopiesPark(pl: Plan, state: seq<Entry>, c: nat, part: set<nat>, g: nat)
    requires g < |pl.acts| && StateOk(pl, state, c, part, g, false) && Complete(pl, c, part, g)
    ensures Copies(pl.acts[g], Gather(state, g))
  {
    forall p, q | 0 <= p < q < |state| && state[p].tag.group == state[q].tag.group == g
      ensures state[p].tag.index < state[q].tag.index
    {
      assert InOrder(state, p, q);
    }
    forall i | 0 <= i < |pl.acts[g]| ensures Tag(g, i) in Tags(state) {
      assert Present(pl, c, part, Tag(g, i)) && Kept(pl, state, c, part, Tag(g, i));
    }
    GatherCopies(state, g, pl.acts[g]);
  }

  /** Offloading group `g`: it is either complete on the device, or nothing has been pushed in it. */
  lemma StatePark(pl: Plan, state: seq<Entry>, c: nat, part: set<nat>, g: nat)
    requires g < |pl.acts| && StateOk(pl, state, c, part, g, false)
    requires if Moved(pl, g) then Complete(pl, c, part, g) else g > c
    ensures !AnyOffloaded(state, g)
    ensures StateOk(pl, ParkAll(state, g), c, part, g + 1, false)
    ensures Moved(pl, g) ==> Copies(pl.acts[g], Gather(state, g))
  {
    EntriesPark(pl, state, c, part, g);
    OrderedSame(state, ParkAll(state, g));
    KeptSame(pl, state, ParkAll(state, g), c, part);
    if Moved(pl, g) {
      CopiesPark(pl, state, c, part, g);
    }
  }

  lemma OrderedSame(s: seq<Entry>, t: seq<Entry>)
    requires Ordered(s) && |s| == |t| && forall p | 0 <= p < |s| :: s[p].tag == t[p].tag
    ensures Ordered(t)
  {
    forall p, q | 0 <= p < q < |t| ensures InOrder(t, p, q) {
      assert InOrder(s, p, q);
    }
  }

  lemma KeptSame(pl: Plan, s: seq<Entry>, t: seq<Entry>, c: int, part: set<nat>)
    requires AllPresent(pl, s, c, part) && |s| == |t| && forall p | 0 <= p < |s| :: s[p].tag == t[p].tag
    ensures AllPresent(pl, t, c, part)
  {
    TagsSame(s, t);
    forall tag ensures Kept(pl, t, c, part, tag) {
      assert Kept(pl, s, c, part, tag);
    }
  }

  lemma TagsSame(s: seq<Entry>, t: seq<Entry>)
    requires |s| == |t| && forall p | 0 <= p < |s| :: s[p].tag == t[p].tag
    ensures Tags(s) == Tags(t)
  {
    forall tag ensures tag in Tags(s) <==> tag in Tags(t) {
      if tag in Tags(s) {
        var p :| 0 <= p < |s| && s[p].tag == tag;
        assert t[p].tag == tag;
      }
      if tag in Tags(t) {
        var p :| 0 <= p < |t| && t[p].tag == tag;
        assert s[p].tag == tag;
      }
    }
  }

  lemma MappingPark(pl: Plan, mapping: map<int, CpuCopies>, g: nat, copies: CpuCopies)
    requires MappingOk(pl, mapping, g) && g < |pl.acts| && (Moved(pl, g) ==> Copies(pl.acts[g], copies))
    ensures MappingOk(pl, mapping[g := copies], g + 1)
  {
  }

  lemma OffloadKeeps(pl: Plan, h: Handler, c: nat, part: set<nat>, g: nat, dropped: int) returns (s: Handler)
    requires g < pl.G <= |pl.acts| && Inv(pl, h, c, part, g, false, dropped)
    requires if Moved(pl, g) then Complete(pl, c, part, g) else g > c
    ensures BulkOffload(h, g) == Some(s) && SameCounters(s, h)
    ensures Inv(pl, s, c, part, g + 1, false, dropped)
  {
    StatePark(pl, h.state, c, part, g);
    MappingPark(pl, h.mapping, g, Gather(h.state, g));
    s := BulkOffload(h, g).value;
  }

  lemma BufDrop(pl: Plan, buf: map<Tag, Option<Tensor>>, c: int, part: set<nat>, dropped: nat)
    requires BufOk(pl, buf, c, part, dropped)
    ensures BufOk(pl, Dropped(buf, dropped), c, part, dropped + 1)
  {
    var after := dropped + 1;
    forall tag ensures SlotOk(pl, Dropped(buf, dropped), c, part, after, tag) {
      assert SlotOk(pl, buf, c, part, dropped, tag);
      assert tag in Dropped(buf, dropped) <==> tag in buf;
    }
  }

  lemma FullGroup(pl: Plan, c: nat, g: nat)
    requires c < |pl.acts| && g <= c
    ensures Complete(pl, c, Upto(|pl.acts[c]|), g)
  {
  }

  /** Committing turns the full group c into one of the groups before c + 1. */
  lemma CommitRegroups(pl: Plan, h: Handler, c: nat, parked: int, dropped: int)
    requires c < |pl.acts| && Inv(pl, h, c, Upto(|pl.acts[c]|), parked, false, dropped)
    ensures Inv(pl, h.(current := c + 1, count := 0), c + 1, Upto(0), parked, false, dropped)
  {
    forall tag ensures Present(pl, c + 1, Upto(0), tag) == Present(pl, c, Upto(|pl.acts[c]|), tag) {
    }
    Regroup(pl, h.state, h.buf, c, Upto(|pl.acts[c]|), c + 1, Upto(0), parked, false, dropped);
  }

  /** The same tensors are present from both points of view. */
  lemma Regroup(pl: Plan, state: seq<Entry>, buf: map<Tag, Option<Tensor>>, c: nat, part: set<nat>,
                c': nat, part': set<nat>, parked: int, back: bool, dropped: int)
    requires StateOk(pl, state, c, part, parked, back) && BufOk(pl, buf, c, part, dropped)
    requires forall tag :: Present(pl, c', part', tag) == Present(pl, c, part, tag)
    ensures StateOk(pl, state, c', part', parked, back) && BufOk(pl, buf, c', part', dropped)
  {
    forall tag ensures SlotOk(pl, buf, c', part', dropped, tag) {
      assert SlotOk(pl, buf, c, part, dropped, tag);
    }
    forall tag ensures Kept(pl, state, c', part', tag) {
      assert Kept(pl, state, c, part, tag);
    }
  }

  lemma StartKeeps(pl: Plan, h: Handler, c: nat) returns (s: Handler)
    requires Valid(pl) && c < pl.L && Fwd(pl, h, c, |pl.acts[c]|)
    ensures Start(h) == Some(s) && SameCounters(s, h)
    ensures Inv(pl, s, c, Upto(|pl.acts[c]|), Min(h.offloaded + 1, pl.G), false, h.offloaded)
  {
    if c == 0 {
      PassedLow(pl, h.offloaded, 0);
      FullGroup(pl, 0, 0);
      s := OffloadKeeps(pl, h, 0, Upto(|pl.acts[0]|), 0, h.offloaded);
    } else {
      s := h;
    }
  }

  lemma NextComplete(pl: Plan, c: nat, off: nat)
    requires Valid(pl) && c < pl.L && off < pl.G - 1 && pl.win[off] == c
    ensures if Moved(pl, off + 1) then Complete(pl, c, Upto(|pl.acts[c]|), off + 1) else off + 1 > c
  {
    if Moved(pl, off + 1) {
      FullGroup(pl, c, off + 1);
    }
  }

  lemma AdvanceIs(h: Handler, h1: Handler, next: Handler)
    requires h.offloaded < h.groups - 1 && h1 == h.(buf := Dropped(h.buf, h.offloaded))
    requires BulkOffload(h1, h.offloaded + 1) == Some(next)
    ensures Advance(h) == Some(next.(offloaded := h.offloaded + 1))
  {
  }

  /** Dropping group off and offloading the next, g. */
  lemma AdvanceWith(pl: Plan, h: Handler, c: nat, part: set<nat>, off: nat, g: nat) returns (s: Handler)
    requires off == h.offloaded && g == off + 1 && g < pl.G <= |pl.acts| && h.groups == pl.G
    requires if Moved(pl, g) then Complete(pl, c, part, g) else g > c
    requires Inv(pl, h, c, part, g, false, off)
    ensures Advance(h) == Some(s) && s.offloaded == g
    ensures Inv(pl, s, c, part, g + 1, false, g)
  {
    var h1 := DropStep(pl, h, c, part, g, off, g);
    var next := OffloadKeeps(pl, h1, c, part, g, g);
    AdvanceIs(h, h1, next);
    s := CountOne(pl, next, c, part, g + 1, g);
  }

  lemma DropStep(pl: Plan, h: Handler, c: nat, part: set<nat>, parked: int, off: nat, g: nat) returns (h1: Handler)
    requires off == h.offloaded && g == off + 1 && Inv(pl, h, c, part, parked, false, off)
    ensures h1 == h.(buf := Dropped(h.buf, h.offloaded)) && Inv(pl, h1, c, part, parked, false, g)
  {
    BufDrop(pl, h.buf, c, part, off);
    h1 := h.(buf := Dropped(h.buf, h.offloaded));
  }

  lemma CountOne(pl: Plan, h: Handler, c: int, part: set<nat>, parked: int, dropped: int) returns (s: Handler)
    requires Inv(pl, h, c, part, parked, false, dropped)
    ensures s == h.(offloaded := dropped) && Inv(pl, s, c, part, parked, false, dropped)
  {
    s := h.(offloaded := dropped);
  }

  lemma AdvanceLast(pl: Plan, h: Handler, c: nat) returns (s: Handler)
    requires Valid(pl) && c < pl.L && h.offloaded == pl.G - 1 && h.groups == pl.G
    requires Inv(pl, h, c, Upto(|pl.acts[c]|), pl.G, false, h.offloaded)
    ensures Advance(h) == Some(s) && s.offloaded == pl.G
    ensures Inv(pl, s, c, Upto(|pl.acts[c]|), pl.G, false, pl.G)
  {
    BufDrop(pl, h.buf, c, Upto(|pl.acts[c]|), h.offloaded);
    s := h.(buf := Dropped(h.buf, h.offloaded), offloaded := pl.G);
  }

  lemma StillOpen(pl: Plan, h: Handler, c: nat)
    requires Valid(pl) && c < pl.L && Fwd(pl, h, c, |pl.acts[c]|)
    ensures 0 <= h.offloaded < pl.G == h.groups && h.current == c
    ensures h.offloaded in h.window && h.window[h.offloaded] == pl.win[h.offloaded] >= c
    ensures h.offloaded + 1 < pl.G ==> pl.win[h.offloaded] < pl.win[h.offloaded + 1]
  {
  }

  lemma SynchronizeIs(h: Handler, t: Handler)
    requires Start(h) == Some(t) && h.offloaded in h.window
    ensures Synchronize(h) == if h.window[h.offloaded] == h.current then Advance(t) else Some(t)
  {
  }

  lemma AdvanceKeeps(pl: Plan, h: Handler, c: nat) returns (s: Handler)
    requires Valid(pl) && c < pl.L && 0 <= h.offloaded < pl.G == h.groups && pl.win[h.offloaded] == c
    requires Inv(pl, h, c, Upto(|pl.acts[c]|), Min(h.offloaded + 1, pl.G), false, h.offloaded)
    ensures Advance(h) == Some(s) && s.offloaded == h.offloaded + 1
    ensures Inv(pl, s, c, Upto(|pl.acts[c]|), Min(h.offloaded + 2, pl.G), false, h.offloaded + 1)
  {
    if h.offloaded < pl.G - 1 {
      NextComplete(pl, c, h.offloaded);
      s := AdvanceWith(pl, h, c, Upto(|pl.acts[c]|), h.offloaded, h.offloaded + 1);
    } else {
      s := AdvanceLast(pl, h, c);
    }
  }

  lemma SynchronizeAdvances(pl: Plan, h: Handler, c: nat) returns (s: Handler)
    requires Valid(pl) && c < pl.L && Fwd(pl, h, c, |pl.acts[c]|)
    requires 0 <= h.offloaded < pl.G && pl.win[h.offloaded] == c
    ensures Synchronize(h) == Some(s) && s.offloaded == h.offloaded + 1
    ensures Inv(pl, s, c, Upto(|pl.acts[c]|), Min(h.offloaded + 2, pl.G), false, h.offloaded + 1)
  {
    StillOpen(pl, h, c);
    var t := StartKeeps(pl, h, c);
    SynchronizeIs(h, t);
    s := AdvanceKeeps(pl, t, c);
  }

  lemma SynchronizeKeeps(pl: Plan, h: Handler, c: nat) returns (s: Handler)
    requires Valid(pl) && c < pl.L && Fwd(pl, h, c, |pl.acts[c]|)
    ensures Synchronize(h) == Some(s) && Passed(pl, s.offloaded, c + 1)
    ensures Inv(pl, s, c, Upto(|pl.acts[c]|), Min(s.offloaded + 1, pl.G), false, s.offloaded)
  {
    StillOpen(pl, h, c);
    if pl.win[h.offloaded] == c {
      s := SynchronizeAdvances(pl, h, c);
    } else {
      s := StartKeeps(pl, h, c);
      SynchronizeIs(h, s);
    }
  }

  lemma CommitForwardIs(h: Handler, s: Handler)
    requires Synchronize(h) == Some(s)
    ensures CommitForward(h) == Some(s.(current := h.current + 1, count := 0))
  {
  }

  /** A forward commit offloads and drops what is due, and no assert or lookup in it fails. */
  lemma CommitForwardKeeps(pl: Plan, h: Handler, c: nat) returns (h': Handler)
    requires Valid(pl) && c < pl.L && Fwd(pl, h, c, |pl.acts[c]|)
    ensures CommitForward(h) == Some(h') && Fwd(pl, h', c + 1, 0)
  {
    var s := SynchronizeKeeps(pl, h, c);
    CommitRegroups(pl, s, c, Min(s.offloaded + 1, pl.G), s.offloaded);
    CommitForwardIs(h, s);
    h' := s.(current := c + 1, count := 0);
  }

  // ----- the turn and the backward pass

  lemma StateTurn(pl: Plan, state: seq<Entry>, c: int)
    requires StateOk(pl, state, c, {}, pl.G, false)
    ensures StateOk(pl, state, c, {}, pl.G, true)
  {
    forall p | 0 <= p < |state| ensures SavedOk(pl, pl.G, true, state[p]) {
      assert SavedOk(pl, pl.G, false, state[p]);
    }
  }

  lemma TurnKeeps(pl: Plan, h: Handler)
    requires Valid(pl) && Fwd(pl, h, pl.L, 0)
    ensures Bwd(pl, h, pl.L, {}, pl.G)
  {
    assert Upto(0) == {};
    assert h.offloaded == pl.G;
    StateTurn(pl, h.state, pl.L);
  }

  /** All tensors of group g can be viewed with their own shape in the copy kept for their key. */
  predicate ViewsFit(pl: Plan, g: nat)
    requires g < |pl.acts|
  {
    forall i | 0 <= i < |pl.acts[g]| :: |FirstElems(pl.acts[g], pl.acts[g][i].key)| == |pl.acts[g][i].elems|
  }

  lemma StateRestore(pl: Plan, state: seq<Entry>, c: nat, g: nat, copies: CpuCopies)
    requires Valid(pl) && g < pl.G && StateOk(pl, state, c, {}, g + 1, true)
    requires Moved(pl, g) ==> Copies(pl.acts[g], copies) && ViewsFit(pl, g)
    ensures forall e | e in state :: Restorable(e, g, copies)
    ensures StateOk(pl, RestoreAll(state, g, copies), c, {}, g, true)
  {
    var state' := RestoreAll(state, g, copies);
    forall e | e in state ensures Restorable(e, g, copies) {
      var p :| 0 <= p < |state| && state[p] == e;
      assert SavedOk(pl, g + 1, true, state[p]);
    }
    forall p | 0 <= p < |state'| ensures Present(pl, c, {}, state'[p].tag) && SavedOk(pl, g, true, state'[p]) {
      assert state'[p] == Restored(state[p], g, copies);
    }
    OrderedSame(state, state');
    KeptSame(pl, state, state', c, {});
  }

  lemma ReloadKeeps(pl: Plan, h: Handler, c: nat, g: nat) returns (s: Handler)
    requires Valid(pl) && g < pl.G && Inv(pl, h, c, {}, g + 1, true, pl.G)
    requires Moved(pl, g) ==> ViewsFit(pl, g)
    ensures BulkReload(h, g) == Some(s) && SameCounters(s, h)
    ensures Inv(pl, s, c, {}, g, true, pl.G)
  {
    StateRestore(pl, h.state, c, g, h.mapping[g]);
    s := BulkReload(h, g).value;
  }

  /** When the copies of a group cannot all be viewed as its tensors, reloading it raises. */
  lemma ReloadFails(pl: Plan, h: Handler, c: nat, g: nat)
    requires Valid(pl) && g < pl.G && StateOk(pl, h.state, c, {}, g + 1, true) && MappingOk(pl, h.mapping, g + 1)
    requires Moved(pl, g) && g < c && !ViewsFit(pl, g)
    ensures BulkReload(h, g).None?
  {
    var i :| 0 <= i < |pl.acts[g]| && |FirstElems(pl.acts[g], pl.acts[g][i].key)| != |pl.acts[g][i].elems|;
    assert Present(pl, c, {}, Tag(g, i)) && Kept(pl, h.state, c, {}, Tag(g, i));
    var p :| 0 <= p < |h.state| && h.state[p].tag == Tag(g, i);
    assert h.state[p] in h.state;
    assert WellFormed(pl.acts[g][i]);
    assert !Restorable(h.state[p], g, h.mapping[g]);
  }

  lemma BackRegroups(pl: Plan, h: Handler, c: nat, m: int)
    requires 0 < c <= |pl.acts| && Inv(pl, h, c, {}, m, true, pl.G)
    ensures Inv(pl, h.(current := c - 1), c - 1, Upto(|pl.acts[c - 1]|), m, true, pl.G)
  {
    forall tag ensures Present(pl, c, {}, tag) == Present(pl, c - 1, Upto(|pl.acts[c - 1]|), tag) {
    }
    Regroup(pl, h.state, h.buf, c, {}, c - 1, Upto(|pl.acts[c - 1]|), m, true, pl.G);
  }

  predicate Reloads(pl: Plan, c: nat, m: nat)
    requires m <= |pl.win|
  {
    m > 0 && pl.win[m - 1] == c - 1
  }

  /** The window looked up by a backward commit is there, and matches exactly when a reload is due. */
  lemma BackwardLookup(pl: Plan, h: Handler, c: nat, m: nat)
    requires Valid(pl) && c > 0 && Bwd(pl, h, c, {}, m)
    ensures h.offloaded - 1 in h.window
    ensures h.window[h.offloaded - 1] == c - 1 <==> Reloads(pl, c, m)
    ensures Reloads(pl, c, m) ==> h.offloaded == m
  {
  }

  lemma CommitBackwardIs(h: Handler, s: Handler)
    requires h.current > 0 && h.offloaded - 1 in h.window
    requires var h1 := h.(current := h.current - 1);
             if h.window[h.offloaded - 1] == h1.current then BulkReload(h1, h.offloaded - 1) == Some(s) else s == h1
    requires s.current == h.current - 1 && s.offloaded == h.offloaded
    ensures var less := if h.window[h.offloaded - 1] == s.current && h.offloaded > 1 then 1 else 0;
            CommitBackward(h) == Some(s.(offloaded := if s.current == 0 then 0 else h.offloaded - less))
  {
  }

  lemma ReloadCommutes(h: Handler, g: nat, s: Handler, c: int)
    requires BulkReload(h, g) == Some(s)
    ensures BulkReload(h.(current := c), g) == Some(s.(current := c))
  {
  }

  lemma CommitBackwardReloads(pl: Plan, h: Handler, c: nat, m: nat) returns (h': Handler)
    requires Valid(pl) && c > 0 && Bwd(pl, h, c, {}, m)
    requires Reloads(pl, c, m) && (Moved(pl, m - 1) ==> ViewsFit(pl, m - 1))
    ensures CommitBackward(h) == Some(h') && Bwd(pl, h', c - 1, Upto(|pl.acts[c - 1]|), m - 1)
  {
    BackwardLookup(pl, h, c, m);
    var s := ReloadKeeps(pl, h, c, m - 1);
    ReloadCommutes(h, m - 1, s, c - 1);
    BackRegroups(pl, s, c, m - 1);
    CommitBackwardIs(h, s.(current := c - 1));
    h' := CommitBackward(h).value;
  }

  lemma CommitBackwardSkips(pl: Plan, h: Handler, c: nat, m: nat) returns (h': Handler)
    requires Valid(pl) && c > 0 && Bwd(pl, h, c, {}, m) && !Reloads(pl, c, m)
    ensures CommitBackward(h) == Some(h') && Bwd(pl, h', c - 1, Upto(|pl.acts[c - 1]|), m)
  {
    BackwardLookup(pl, h, c, m);
    BackRegroups(pl, h, c, m);
    CommitBackwardIs(h, h.(current := c - 1));
    h' := CommitBackward(h).value;
  }

  /** A backward commit reloads what is due before its group is popped. */
  lemma CommitBackwardKeeps(pl: Plan, h: Handler, c: nat, m: nat)
    requires Valid(pl) && c > 0 && Bwd(pl, h, c, {}, m)
    requires Reloads(pl, c, m) && Moved(pl, m - 1) ==> ViewsFit(pl, m - 1)
    ensures var r := CommitBackward(h);
            && r.Some?
            && Bwd(pl, r.value, c - 1, Upto(|pl.acts[c - 1]|), if Reloads(pl, c, m) then m - 1 else m)
  {
    var h';
    if Reloads(pl, c, m) {
      h' := CommitBackwardReloads(pl, h, c, m);
    } else {
      h' := CommitBackwardSkips(pl, h, c, m);
    }
  }

  lemma CommitBackwardRaises(h: Handler)
    requires h.current > 0 && h.offloaded - 1 in h.window && h.window[h.offloaded - 1] == h.current - 1
    requires BulkReload(h.(current := h.current - 1), h.offloaded - 1).None?
    ensures CommitBackward(h).None?
  {
  }

  lemma CommitBackwardFails(pl: Plan, h: Handler, c: nat, m: nat)
    requires Valid(pl) && c > 0 && Bwd(pl, h, c, {}, m)
    requires Reloads(pl, c, m) && Moved(pl, m - 1) && !ViewsFit(pl, m - 1)
    ensures CommitBackward(h).None?
  {
    BackwardLookup(pl, h, c, m);
    ReloadFails(pl, h.(current := c - 1), c, m - 1);
    CommitBackwardRaises(h);
  }

  // ----- pop

  function Without(state: seq<Entry>, p: nat): seq<Entry>
    requires p < |state|
  {
    state[..p] + state[p + 1..]
  }

  lemma WithoutAt(state: seq<Entry>, p: nat)
    requires p < |state|
    ensures |Without(state, p)| == |state| - 1
    ensures forall q | 0 <= q < |state| - 1 :: Without(state, p)[q] == state[if q < p then q else q + 1]
  {
  }

  /** In a well-ordered state every tag occurs once. */
  lemma TagOnce(pl: Plan, state: seq<Entry>, c: nat, part: set<nat>, m: int, p: nat, q: nat)
    requires StateOk(pl, state, c, part, m, true) && p < |state| && q < |state| && p != q
    ensures state[p].tag != state[q].tag
  {
    if p < q {
      assert InOrder(state, p, q);
    } else {
      assert InOrder(state, q, p);
    }
  }

  lemma EntriesPop(pl: Plan, state: seq<Entry>, c: nat, part: set<nat>, m: int, p: nat)
    requires StateOk(pl, state, c, part, m, true) && p < |state| && state[p].tag.group == c
    ensures EntriesOk(pl, Without(state, p), c, part - {state[p].tag.index}, m, true)
  {
    var state' := Without(state, p);
    WithoutAt(state, p);
    forall q | 0 <= q < |state'|
      ensures Present(pl, c, part - {state[p].tag.index}, state'[q].tag) && SavedOk(pl, m, true, state'[q])
    {
      TagOnce(pl, state, c, part, m, p, if q < p then q else q + 1);
    }
  }

  lemma OrderedPop(state: seq<Entry>, p: nat)
    requires Ordered(state) && p < |state|
    ensures Ordered(Without(state, p))
  {
    var state' := Without(state, p);
    WithoutAt(state, p);
    forall i, j | 0 <= i < j < |state'| ensures InOrder(state', i, j) {
      assert InOrder(state, if i < p then i else i + 1, if j < p then j else j + 1);
    }
  }

  lemma AllPresentPop(pl: Plan, state: seq<Entry>, c: nat, part: set<nat>, p: nat)
    requires AllPresent(pl, state, c, part) && p < |state| && state[p].tag.group == c
    ensures AllPresent(pl, Without(state, p), c, part - {state[p].tag.index})
  {
    var state' := Without(state, p);
    WithoutAt(state, p);
    var part' := part - {state[p].tag.index};
    forall tag ensures Kept(pl, state', c, part', tag) {
      assert Kept(pl, state, c, part, tag);
      if Present(pl, c, part', tag) {
        assert Present(pl, c, part, tag);
        InTags(state, tag);
        var q :| 0 <= q < |state| && state[q].tag == tag;
        TagsAt(state', if q < p then q else q - 1);
      }
    }
  }

  lemma StatePop(pl: Plan, state: seq<Entry>, c: nat, part: set<nat>, m: int, i: nat)
    requires c < |pl.acts| && i in part && i < |pl.acts[c]| && StateOk(pl, state, c, part, m, true)
    ensures var p := Find(state, Tag(c, i));
            && p >= 0 && state[p].tag == Tag(c, i) && SavedOk(pl, m, true, state[p])
            && StateOk(pl, Without(state, p), c, part - {i}, m, true)
  {
    assert Present(pl, c, part, Tag(c, i)) && Kept(pl, state, c, part, Tag(c, i));
    InTags(state, Tag(c, i));
    var p := Find(state, Tag(c, i));
    EntriesPop(pl, state, c, part, m, p);
    OrderedPop(state, p);
    AllPresentPop(pl, state, c, part, p);
  }

  lemma BufPop(pl: Plan, buf: map<Tag, Option<Tensor>>, c: nat, part: set<nat>, i: nat, dropped: int)
    requires BufOk(pl, buf, c, part, dropped)
    ensures BufOk(pl, buf - {Tag(c, i)}, c, part - {i}, dropped)
  {
    var buf' := buf - {Tag(c, i)};
    forall tag ensures SlotOk(pl, buf', c, part - {i}, dropped, tag) {
      assert SlotOk(pl, buf, c, part, dropped, tag);
      assert tag in buf' <==> tag in buf && tag != Tag(c, i);
    }
  }

  /** The group being popped is not on the CPU any more. */
  lemma NotParked(pl: Plan, c: nat, m: nat)
    requires Valid(pl) && c < pl.L && Passed(pl, m, c)
    ensures !(Moved(pl, c) && c < m)
  {
  }

  lemma PopIs(h: Handler, tag: Tag)
    requires var p := Find(h.state, tag); p >= 0 && h.state[p].saved.OnDevice?
    ensures var p := Find(h.state, tag);
            Pop(h, Tagged(tag)) == Some((h.(state := Without(h.state, p), buf := h.buf - {tag}), h.state[p].saved.t))
  {
  }

  /** A pop in the backward pass succeeds and returns the pushed shape with the elements kept for it. */
  lemma PopKeeps(pl: Plan, h: Handler, c: nat, part: set<nat>, m: nat, i: nat)
    requires Valid(pl) && c < pl.L && Bwd(pl, h, c, part, m) && i in part && i < |pl.acts[c]|
    ensures var r := Pop(h, Tagged(Tag(c, i)));
            && r.Some?
            && r.value.1.shape == pl.acts[c][i].shape && r.value.1.elems == Expected(pl, c, i)
            && Bwd(pl, r.value.0, c, part - {i}, m)
  {
    StatePop(pl, h.state, c, part, m, i);
    NotParked(pl, c, m);
    BufPop(pl, h.buf, c, part, i, pl.G);
    PopIs(h, Tag(c, i));
  }

  function HeadTag(state: seq<Entry>): Tag {
    if state == [] then Tag(-1, 0) else state[0].tag
  }

  /** When everything has been popped the handler is as new. */
  lemma EndIsFresh(pl: Plan, h: Handler, m: nat)
    requires Valid(pl) && Bwd(pl, h, 0, {}, m)
    ensures h == Handler(pl.G, pl.L, AsMap(pl.win), 0, 0, [], map[], 0, map[])
  {
    assert m == 0;
    assert !Present(pl, 0, {}, HeadTag(h.state));
    assert forall g :: g !in h.mapping;
    assert h.mapping == map[];
    forall tag ensures tag !in h.buf {
      assert SlotOk(pl, h.buf, 0, {}, pl.G, tag);
    }
    assert h.buf == map[];
  }
}
