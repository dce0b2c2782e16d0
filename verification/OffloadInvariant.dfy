/** What the bookkeeping looks like at every point of a training step. */
module OffloadInvariant {
  import opened Wrappers
  import opened Arithmetic
  import opened OffloadSpec

  /** L layers, the first G of them offload groups; acts[g] are the tensors pushed in group g, and
      group g is dropped when layer win[g] is committed. */
  datatype Plan = Plan(G: nat, L: nat, win: seq<int>, acts: seq<seq<Tensor>>)

  /** What the bookkeeping needs of the window map: it is strictly increasing, ends with the last layer,
      and with fewer offload groups than layers group j is dropped only after group j + 1 was pushed. */
  ghost predicate GoodWindow(G: nat, L: nat, win: seq<int>) {
    && |win| == G
    && (forall j | 0 <= j < G - 1 :: win[j] < win[j + 1])
    && (G > 0 ==> win[G - 1] == L - 1)
    && (forall j | 0 <= j < G :: j <= win[j] < L)
    && (forall j | 0 <= j < G :: if G < L then j + 1 <= win[j] else win[j] == j)
  }

  function AsMap(win: seq<int>): map<int, int> {
    map i | 0 <= i < |win| :: win[i]
  }

  ghost predicate Valid(pl: Plan) {
    && 1 <= pl.G <= pl.L == |pl.acts|
    && GoodWindow(pl.G, pl.L, pl.win)
    && forall g, i | 0 <= g < pl.L && 0 <= i < |pl.acts[g]| :: WellFormed(pl.acts[g][i])
  }

  function Windows(layers: int, groups: nat): seq<int>
    requires groups > 0
  {
    seq(groups, i requires 0 <= i < groups => Window(layers, groups, i))
  }

  lemma WindowIncreases(L: nat, G: nat, j: nat)
    requires 1 <= G <= L && j < G
    ensures Window(L, G, G - 1) == L - 1
    ensures j + 1 < G ==> Window(L, G, j) < Window(L, G, j + 1)
    ensures L / G >= 1
  {
    var q := L / G;
    assert L == q * G + L % G;
    assert q >= 1;
    assert q * (j + 2) == q * (j + 1) + q;
  }

  lemma {:induction false} WindowBelow(L: nat, G: nat, j: nat)
    requires 1 <= G <= L && j < G
    ensures Window(L, G, j) < L
    decreases G - j
  {
    WindowIncreases(L, G, j);
    if j + 1 < G {
      WindowBelow(L, G, j + 1);
    }
  }

  lemma WindowAbove(L: nat, G: nat, j: nat)
    requires 1 <= G <= L && j < G
    ensures j <= Window(L, G, j)
    ensures G < L ==> j + 1 <= Window(L, G, j)
    ensures G == L ==> Window(L, G, j) == j
  {
    var q, r := L / G, L % G;
    WindowIncreases(L, G, j);
    MulMono(1, q, j + 1);
    assert q * (j + 1) == (j + 1) * q;
    if G == L {
      OneFits(G);
    } else if q == 1 {
      assert L == q * G + r;
    } else {
      MulMono(2, q, j + 1);
    }
  }

  /** The closed form of the window map is a good window for any number of offload groups. */
  lemma ClosedFormGood(L: nat, G: nat)
    requires 1 <= G <= L
    ensures GoodWindow(G, L, Windows(L, G))
    ensures AsMap(Windows(L, G)) == WindowMap(L, G)
  {
    WindowIncreases(L, G, G - 1);
    forall j: nat | j < G ensures j <= Window(L, G, j) < L && (G < L ==> j + 1 <= Window(L, G, j))
        && (j + 1 < G ==> Window(L, G, j) < Window(L, G, j + 1)) && (G == L ==> Window(L, G, j) == j) {
      WindowIncreases(L, G, j);
      WindowBelow(L, G, j);
      WindowAbove(L, G, j);
    }
  }

  /** The windows cut the layers into runs, one per offload group; the first ones are one layer longer. */
  lemma WindowGaps(L: int, G: nat, i: nat)
    requires i < G
    ensures var m := WindowMap(L, G);
            && (forall j :: j in m <==> 0 <= j < G)
            && m[i] - (if i == 0 then -1 else m[i - 1]) == L / G + if i < L % G then 1 else 0
  {
    assert L / G * (i + 1) == L / G * i + L / G;
  }

  lemma OneFits(n: nat)
    requires n >= 1
    ensures n / n == 1 && n % n == 0
  {
  }

  /** Group g is really copied to the CPU: with as many offload groups as layers all but the first are
      "offloaded" before anything has been pushed in them. */
  predicate Moved(pl: Plan, g: int) {
    0 <= g < pl.G && (pl.G < pl.L || g == 0)
  }

  /** The elements of the first tensor with this key. */
  function FirstElems(ts: seq<Tensor>, key: int): seq<int> {
    if ts == [] then [] else if ts[0].key == key then ts[0].elems else FirstElems(ts[1..], key)
  }

  /** The elements a pop of the i-th tensor of group g gives back. */
  function Expected(pl: Plan, g: nat, i: nat): seq<int>
    requires g < |pl.acts| && i < |pl.acts[g]|
  {
    var t := pl.acts[g][i];
    if Moved(pl, g) then FirstElems(pl.acts[g], t.key) else t.elems
  }

  predicate Present(pl: Plan, c: int, part: set<nat>, tag: Tag) {
    0 <= tag.group < |pl.acts| && tag.index < |pl.acts[tag.group]| &&
    (tag.group < c || (tag.group == c && tag.index in part))
  }

  function Tags(state: seq<Entry>): set<Tag> {
    set p | 0 <= p < |state| :: state[p].tag
  }

  predicate SavedOk(pl: Plan, parked: int, back: bool, e: Entry)
    requires 0 <= e.tag.group < |pl.acts| && e.tag.index < |pl.acts[e.tag.group]|
  {
    var g := e.tag.group;
    var t := pl.acts[g][e.tag.index];
    if Moved(pl, g) && g < parked then e.saved == Offloaded(t.key, t.shape)
    else if Moved(pl, g) && back then
      e.saved.OnDevice? && e.saved.t.shape == t.shape && e.saved.t.elems == FirstElems(pl.acts[g], t.key)
    else e.saved == OnDevice(t)
  }

  ghost predicate StateOk(pl: Plan, state: seq<Entry>, c: int, part: set<nat>, parked: int, back: bool) {
    EntriesOk(pl, state, c, part, parked, back) && Ordered(state) && AllPresent(pl, state, c, part)
  }

  ghost predicate EntriesOk(pl: Plan, state: seq<Entry>, c: int, part: set<nat>, parked: int, back: bool) {
    forall p | 0 <= p < |state| :: Present(pl, c, part, state[p].tag) && SavedOk(pl, parked, back, state[p])
  }

  /** The tensors of a group are in the order in which they were pushed. */
  ghost predicate Ordered(state: seq<Entry>) {
    forall p, q | 0 <= p < q < |state| :: InOrder(state, p, q)
  }

  predicate InOrder(state: seq<Entry>, p: nat, q: nat)
    requires p < |state| && q < |state|
  {
    state[p].tag.group == state[q].tag.group ==> state[p].tag.index < state[q].tag.index
  }

  ghost predicate AllPresent(pl: Plan, state: seq<Entry>, c: int, part: set<nat>) {
    forall tag :: Kept(pl, state, c, part, tag)
  }

  ghost predicate Kept(pl: Plan, state: seq<Entry>, c: int, part: set<nat>, tag: Tag) {
    Present(pl, c, part, tag) ==> tag in Tags(state)
  }

  ghost predicate MappingOk(pl: Plan, mapping: map<int, CpuCopies>, parked: int) {
    && parked <= |pl.acts|
    && (forall g :: g in mapping <==> 0 <= g < parked)
    && (forall g | 0 <= g < parked && Moved(pl, g) :: Copies(pl.acts[g], mapping[g]))
  }

  predicate Copies(ts: seq<Tensor>, m: CpuCopies) {
    forall i | 0 <= i < |ts| :: ts[i].key in m && m[ts[i].key] == FirstElems(ts, ts[i].key)
  }

  ghost predicate BufOk(pl: Plan, buf: map<Tag, Option<Tensor>>, c: int, part: set<nat>, dropped: int) {
    forall tag :: SlotOk(pl, buf, c, part, dropped, tag)
  }

  /** The buffer holds the tag while its tensor is present, and the tensor itself until its group is dropped. */
  ghost predicate SlotOk(pl: Plan, buf: map<Tag, Option<Tensor>>, c: int, part: set<nat>, dropped: int, tag: Tag) {
    && (tag in buf <==> Present(pl, c, part, tag) && tag.group < pl.G)
    && (tag in buf ==> buf[tag] == if tag.group < dropped then None else Some(pl.acts[tag.group][tag.index]))
  }

  ghost predicate Inv(pl: Plan, h: Handler, c: int, part: set<nat>, parked: int, back: bool, dropped: int) {
    && h.groups == pl.G && h.layers == pl.L && h.window == AsMap(pl.win) && h.current == c
    && StateOk(pl, h.state, c, part, parked, back)
    && MappingOk(pl, h.mapping, parked)
    && BufOk(pl, h.buf, c, part, dropped)
  }

  function Upto(k: nat): (r: set<nat>)
    ensures forall i: nat :: i in r <==> i < k
  {
    if k == 0 then {} else Upto(k - 1) + {k - 1}
  }

  /** `off` windows lie before layer c. */
  predicate Passed(pl: Plan, off: int, c: int) {
    0 <= off <= pl.G == |pl.win| && (off > 0 ==> pl.win[off - 1] < c) && (off < pl.G ==> c <= pl.win[off])
  }

  /** In the forward pass c groups are committed and k tensors of group c are pushed. */
  ghost predicate Fwd(pl: Plan, h: Handler, c: nat, k: nat)
  {
    && c <= pl.L == |pl.acts| && k <= (if c < pl.L then |pl.acts[c]| else 0)
    && h.count == k
    && Passed(pl, h.offloaded, c)
    && Inv(pl, h, c, Upto(k), if c == 0 then 0 else Min(h.offloaded + 1, pl.G), false, h.offloaded)
  }

  /** In the backward pass group c is being popped, the tensors in `part` are left of it. */
  ghost predicate Bwd(pl: Plan, h: Handler, c: nat, part: set<nat>, m: nat)
  {
    && c <= pl.L == |pl.acts|
    && h.count == 0
    && Passed(pl, m, c)
    && h.offloaded == (if c == 0 then 0 else if m > 1 then m else 1)
    && Inv(pl, h, c, part, m, true, pl.G)
  }
}
