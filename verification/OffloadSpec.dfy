/** Asynchronous activation offloading as functions on the handler's bookkeeping. None stands for a
    failed assert, a missing dictionary key or a view of the wrong size. Streams run their copies
    at once. */
module OffloadSpec {
  import opened Wrappers

  /** `key` is what `_get_unique_tensor_key` returns: address and dtype. */
  datatype Tensor = Tensor(key: int, elems: seq<int>, shape: seq<nat>)

  function Volume(shape: seq<nat>): nat {
    if shape == [] then 1 else Volume(shape[..|shape| - 1]) * shape[|shape| - 1]
  }

  predicate WellFormed(t: Tensor) {
    Volume(t.shape) == |t.elems|
  }

  datatype Tag = Tag(group: int, index: nat)

  /** What `tensor_push` returns: the tensor itself when it is not to be offloaded, else a tag. */
  datatype Handle = Stray(t: Tensor) | Tagged(tag: Tag)

  datatype Saved = OnDevice(t: Tensor) | Offloaded(key: int, shape: seq<nat>)

  datatype Entry = Entry(tag: Tag, saved: Saved)

  type CpuCopies = map<int, seq<int>>

  /** `state` is `tensor_tag_to_state` in insertion order. */
  datatype Handler = Handler(
    groups: int, layers: int, window: map<int, int>,
    current: int, count: nat, state: seq<Entry>,
    buf: map<Tag, Option<Tensor>>, offloaded: int, mapping: map<int, CpuCopies>)

  function Min(a: int, b: int): int {
    if a < b then a else b
  }

  /** The closed form of the window of offload group i. */
  function Window(layers: int, groups: int, i: int): int
    requires groups > 0
  {
    layers / groups * (i + 1) - 1 + Min(i + 1, layers % groups)
  }

  function WindowMap(layers: int, groups: nat): map<int, int> {
    map i | 0 <= i < groups :: Window(layers, groups, i)
  }

  function Fresh(groups: nat, layers: int): Handler {
    Handler(groups, layers, WindowMap(layers, groups), 0, 0, [], map[], 0, map[])
  }

  function Find(state: seq<Entry>, tag: Tag): (p: int)
    ensures -1 <= p < |state|
    ensures p >= 0 ==> state[p].tag == tag
    ensures p < 0 ==> forall k | 0 <= k < |state| :: state[k].tag != tag
  {
    if state == [] then -1
    else
      var n := |state| - 1;
      if state[n].tag == tag then n else Find(state[..n], tag)
  }

  function Push(h: Handler, t: Tensor, need: bool): Option<(Handler, Handle)> {
    if !need then Some((h, Stray(t)))
    else
      var tag := Tag(h.current, h.count);
      if Find(h.state, tag) >= 0 then None
      else
        var buf := if h.current < h.groups then h.buf[tag := Some(t)] else h.buf;
        Some((h.(count := h.count + 1, state := h.state + [Entry(tag, OnDevice(t))], buf := buf), Tagged(tag)))
  }

  function Pop(h: Handler, handle: Handle): Option<(Handler, Tensor)> {
    match handle
    case Stray(t) => Some((h, t))
    case Tagged(tag) =>
      var p := Find(h.state, tag);
      if p < 0 || h.state[p].saved.Offloaded? then None
      else
        Some((h.(state := h.state[..p] + h.state[p + 1..], buf := h.buf - {tag}), h.state[p].saved.t))
  }

  /** The copies made for a group: the first tensor with a key stands for all with that key. */
  function Gather(state: seq<Entry>, g: int): CpuCopies {
    if state == [] then map[]
    else
      var n := |state| - 1;
      var m, e := Gather(state[..n], g), state[n];
      if e.tag.group == g && e.saved.OnDevice? && e.saved.t.key !in m then m[e.saved.t.key := e.saved.t.elems] else m
  }

  function Parked(e: Entry, g: int): Entry {
    if e.tag.group == g && e.saved.OnDevice? then e.(saved := Offloaded(e.saved.t.key, e.saved.t.shape)) else e
  }

  function ParkAll(state: seq<Entry>, g: int): (r: seq<Entry>)
    ensures |r| == |state| && forall p | 0 <= p < |state| :: r[p] == Parked(state[p], g)
  {
    seq(|state|, p requires 0 <= p < |state| => Parked(state[p], g))
  }

  predicate AnyOffloaded(state: seq<Entry>, g: int) {
    exists e :: e in state && e.tag.group == g && e.saved.Offloaded?
  }

  function BulkOffload(h: Handler, g: int): Option<Handler> {
    if AnyOffloaded(h.state, g) then None
    else Some(h.(state := ParkAll(h.state, g), mapping := h.mapping[g := Gather(h.state, g)]))
  }

  function Dropped(buf: map<Tag, Option<Tensor>>, g: int): map<Tag, Option<Tensor>> {
    map tag | tag in buf :: if tag.group == g then None else buf[tag]
  }

  function Advance(h: Handler): Option<Handler> {
    var h1 := h.(buf := Dropped(h.buf, h.offloaded));
    var next := if h.offloaded < h.groups - 1 then BulkOffload(h1, h.offloaded + 1) else Some(h1);
    if next.None? then None else Some(next.value.(offloaded := h.offloaded + 1))
  }

  function Start(h: Handler): Option<Handler> {
    if h.current == 0 then BulkOffload(h, 0) else Some(h)
  }

  function Synchronize(h: Handler): Option<Handler> {
    var started := Start(h);
    if started.None? || h.offloaded !in h.window then None
    else if h.window[h.offloaded] == h.current then Advance(started.value)
    else started
  }

  function CommitForward(h: Handler): Option<Handler> {
    var r := Synchronize(h);
    if r.None? then None else Some(r.value.(current := h.current + 1, count := 0))
  }

  predicate Restorable(e: Entry, g: int, copies: CpuCopies) {
    e.tag.group == g && e.saved.Offloaded? ==>
      e.saved.key in copies && Volume(e.saved.shape) == |copies[e.saved.key]|
  }

  function Restored(e: Entry, g: int, copies: CpuCopies): Entry {
    if e.tag.group == g && e.saved.Offloaded? && e.saved.key in copies then
      e.(saved := OnDevice(Tensor(e.saved.key, copies[e.saved.key], e.saved.shape)))
    else e
  }

  function RestoreAll(state: seq<Entry>, g: int, copies: CpuCopies): (r: seq<Entry>)
    ensures |r| == |state| && forall p | 0 <= p < |state| :: r[p] == Restored(state[p], g, copies)
  {
    seq(|state|, p requires 0 <= p < |state| => Restored(state[p], g, copies))
  }

  function BulkReload(h: Handler, g: int): Option<Handler> {
    if g >= h.groups || g !in h.mapping then None
    else if exists e :: e in h.state && !Restorable(e, g, h.mapping[g]) then None
    else Some(h.(state := RestoreAll(h.state, g, h.mapping[g]), mapping := h.mapping - {g}))
  }

  function CommitBackward(h: Handler): Option<Handler> {
    var h1 := h.(current := h.current - 1);
    if h1.current < 0 || h1.offloaded - 1 !in h1.window then None
    else
      var r := if h1.window[h1.offloaded - 1] != h1.current then Some(h1)
               else
                 var s := BulkReload(h1, h1.offloaded - 1);
                 if s.None? then None
                 else Some(s.value.(offloaded := h1.offloaded - if h1.offloaded > 1 then 1 else 0));
      if r.None? then None
      else if h1.current == 0 then Some(r.value.(offloaded := 0))
      else r
  }
}
